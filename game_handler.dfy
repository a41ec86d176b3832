/**
 * handlers/game_handler.py: a message in game mode. A voice note is
 * transcribed (the transcription is the caller's) and a plain text is taken
 * as it is; the answer goes to the game service, and the game-over reply
 * sends the user back to normal mode.
 */
module GameMessages {
  import opened Wrappers
  import opened Text
  import opened Session
  import opened Messages
  import opened Documents
  import Database
  import Game

  const NextQuestionPrefix := "Next question: "

  function UnderstoodText(answer: string): string {
    "I understood your answer as: \"" + answer + "\""
  }

  /** Whether a game-service reply is read as the end of the game. */
  predicate EndsGame(reply: string) {
    Contains(reply, Game.GameOverMarker)
  }

  /** What is sent for a game-service reply. */
  function GameReplyText(reply: string): (r: string)
    ensures EndsGame(reply) ==> r == reply
    ensures !EndsGame(reply) ==> r == NextQuestionPrefix + reply
  {
    if EndsGame(reply) then reply else NextQuestionPrefix + reply
  }

  /** `USER_STATE` after a game-mode message. */
  function StateAfterMessage(userState: map<int, Mode>, userId: int, input: Input,
                             fallbacks: seq<string>, games: map<int, Game.GameState>, oracle: Game.Oracle): (r: map<int, Mode>)
    requires fallbacks != [] && Game.MaxAttempts <= |oracle.generated|
    ensures r == userState || r == userState[userId := Normal]
    ensures input.Answer? && EndsGame(Game.AnswerReply(fallbacks, games, userId, oracle)) ==> userId in r && r[userId] == Normal
    ensures !(input.Answer? && EndsGame(Game.AnswerReply(fallbacks, games, userId, oracle))) ==> r == userState
  {
    if input.Answer? && EndsGame(Game.AnswerReply(fallbacks, games, userId, oracle)) then userState[userId := Normal]
    else userState
  }

  /** The store after a game-mode message: only an answer reaches the game service, which may store it. */
  function CollectionsAfter(collections: map<Database.Collection, map<string, Doc>>, games: map<int, Game.GameState>,
                            userId: int, message: Message, oracle: Game.Oracle): (r: map<Database.Collection, map<string, Doc>>)
    requires Database.Game in collections
    ensures r.Keys == collections.Keys
    ensures forall c | c in collections && c != Database.Game :: r[c] == collections[c]
    ensures !SelectInput(message).Answer? ==> r == collections
  {
    var input := SelectInput(message);
    if input.Answer? then Game.CollectionsAfterAnswer(collections, games, userId, input.text, oracle) else collections
  }

  /**
   * The replies to a game-mode message: a voice note's transcription is read
   * back, and the game service's reply comes last.
   */
  function Replies(message: Message, fallbacks: seq<string>, games: map<int, Game.GameState>, userId: int, oracle: Game.Oracle)
    : (r: seq<string>)
    requires fallbacks != [] && Game.MaxAttempts <= |oracle.generated|
    ensures !SelectInput(message).Answer? ==> r == UnusedReplies(SelectInput(message))
    ensures SelectInput(message).Answer? ==>
      |r| >= 1 && r[|r| - 1] == GameReplyText(Game.AnswerReply(fallbacks, games, userId, oracle))
    ensures SelectInput(message).Answer? && message.VoiceNote? ==>
      |r| == 3 && r[0] == TranscribingText && r[1] == UnderstoodText(SelectInput(message).text)
  {
    var input := SelectInput(message);
    if !input.Answer? then UnusedReplies(input)
    else (if message.VoiceNote? then [TranscribingText, UnderstoodText(input.text)] else [])
         + [GameReplyText(Game.AnswerReply(fallbacks, games, userId, oracle))]
  }

  /** The answer to question 5 ends the game and sends the user back to normal mode. */
  lemma FinalAnswerResetsMode(userState: map<int, Mode>, userId: int, answer: string,
                              fallbacks: seq<string>, games: map<int, Game.GameState>, oracle: Game.Oracle)
    requires fallbacks != [] && Game.MaxAttempts <= |oracle.generated|
    requires userId in games && games[userId].questionCount == Game.MaxQuestions
    ensures userId !in Game.GamesAfterAnswer(fallbacks, games, userId, oracle)
    ensures StateAfterMessage(userState, userId, Answer(answer), fallbacks, games, oracle) == userState[userId := Normal]
  {
    Game.GameOverReplyIsMarked(fallbacks, games, userId, oracle);
  }

  /** `GameHandler`, over the shared tables and the game service. */
  class GameHandler {
    const tables: Tables
    const games: Game.GameService

    ghost predicate Valid()
      reads this, tables, games, games.db
    {
      tables.Valid() && games.Valid()
    }

    constructor (tables: Tables, games: Game.GameService)
      requires tables.Valid() && games.Valid()
      ensures Valid()
      ensures this.tables == tables && this.games == games
    {
      this.tables := tables;
      this.games := games;
    }

    /**
     * `handle_message` in game mode: the replies sent, in order, and whether
     * it raised. Only an answer reaches the game service; an unusable voice
     * note gets an apology and changes nothing; a voice note that cannot be
     * fetched raises after the first reply, before anything changes.
     */
    method HandleMessage(userId: int, message: Message, oracle: Game.Oracle) returns (replies: seq<string>, raised: bool)
      requires Valid()
      requires Game.MaxAttempts <= |oracle.generated|
      modifies tables, games, games.db
      ensures Valid()
      ensures tables.userThoughts == old(tables.userThoughts)
      ensures raised <==> message.UnfetchedVoiceNote?
      ensures var input := SelectInput(message);
        tables.userState == StateAfterMessage(old(tables.userState), userId, input, games.fallbackQuestions, old(games.activeGames), oracle)
      ensures SelectInput(message).Answer? ==>
        games.activeGames == Game.GamesAfterAnswer(games.fallbackQuestions, old(games.activeGames), userId, oracle)
      ensures !SelectInput(message).Answer? ==> games.activeGames == old(games.activeGames)
      ensures games.db.collections == CollectionsAfter(old(games.db.collections), old(games.activeGames), userId, message, oracle)
      ensures replies == Replies(message, games.fallbackQuestions, old(games.activeGames), userId, oracle)
    {
      var answerText: string;
      replies, raised := [], false;
      match message {
        case VoiceNote(transcript) =>
          replies := replies + [TranscribingText];
          if transcript.None? || transcript.value == "" {
            replies := replies + [UntranscribedText];
            return;
          }
          answerText := transcript.value;
          replies := replies + [UnderstoodText(answerText)];
        case UnfetchedVoiceNote =>
          replies := replies + [TranscribingText];
          raised := true;
          return;
        case TextMessage(text) =>
          if text == "" || StartsWith(text, "/") {
            return;
          }
          answerText := text;
        case OtherMessage =>
          return;
      }
      var nextQuestion := games.HandleAnswer(userId, answerText, oracle);
      if EndsGame(nextQuestion) {
        tables.userState := tables.userState[userId := Normal];
        replies := replies + [nextQuestion];
      } else {
        replies := replies + [NextQuestionPrefix + nextQuestion];
      }
    }
  }
}
