/**
 * game_service.py: the "get to know you" game. `GameService` keeps one game
 * per user, stores every answer with the question it answers, ends the game
 * after the fifth answer and picks each next question by asking the
 * generator up to three times, rejecting repeats and near-repeats, and
 * falling back to a built-in question.
 *
 * The question generator, `random.choice`, `uuid4` and the clock are the
 * caller's: see `Oracle`.
 */
module Game {
  import opened Wrappers
  import opened Text
  import opened Documents
  import Database
  import Claude

  /** Questions per session: the answer that takes the count past it ends the game. */
  const MaxQuestions := 5
  /** Generator calls per answer. */
  const MaxAttempts := 3
  /** A candidate sharing more distinct words than this with an asked question is a near-repeat. */
  const MaxSharedWords := 5

  /** The words the game handler looks for to tell that a game is over. */
  const GameOverMarker := "Thank you for sharing!"
  const GameOverMessage := GameOverMarker + " I've learned a lot about you. You can start a new game anytime."

  /** `GameService.fallback_questions` */
  const FallbackQuestions: seq<string> := [
    "What's something that you've changed your mind about recently, and why?",
    "What personal quality do you appreciate most in yourself?",
    "What's a skill you'd love to master in the next few years?",
    "What's a small moment from your life that had a big impact on who you are today?",
    "What's a belief you hold that most people disagree with?",
    "What's something you wish more people understood about you?",
    "If you could give advice to your younger self, what would it be?",
    "What's a challenge you've faced that ended up being valuable?",
    "What's something you're curious about but haven't explored yet?",
    "What's a compliment someone gave you that you particularly value?",
    "What values or principles guide your decisions?",
    "What's a meaningful goal you're working toward right now?",
    "What's a question you've been asking yourself lately?",
    "What makes you feel most alive or energized?",
    "What's a meaningful connection or relationship in your life?"
  ]

  /** The question the question generator itself falls back to is the first built-in question. */
  lemma GeneratorFallbackIsFirstQuestion()
    ensures Claude.FixedGameQuestion == FallbackQuestions[0]
  {
  }

  /** One user's entry of `active_games`. */
  datatype GameState = GameState(currentQuestion: string, questionCount: int, askedQuestions: seq<string>)
  {
    /**
     * Every question asked is recorded, the current one last; the count never
     * falls behind the questions asked (it runs ahead by one for each answer
     * whose next question came from the exception path) and stays within the
     * session length.
     */
    ghost predicate Valid() {
      && 1 <= |askedQuestions| <= questionCount <= MaxQuestions
      && currentQuestion == askedQuestions[|askedQuestions| - 1]
    }
  }

  /** What one call of the question generator did: returned a question, or raised. */
  datatype Generated = Question(text: string) | Raised

  /**
   * What `handle_answer` cannot compute itself: the generator's successive
   * results, the index `random.choice` takes (modulo the list's length), the
   * `uuid4` and clock `store_entry` uses, and whether the database failed.
   * The last three also serve the normal-mode and chat-mode stores.
   */
  datatype Oracle = Oracle(generated: seq<Generated>, pick: nat, entryId: string, now: string, storeFault: bool)

  /** `len(set(candidate.split()) & set(asked.split())) > 5` */
  predicate TooSimilar(candidate: string, asked: string) {
    |WordSet(candidate) * WordSet(asked)| > MaxSharedWords
  }

  /** A candidate is kept when it is new and not too similar to any asked question. */
  predicate Acceptable(candidate: string, asked: seq<string>) {
    candidate !in asked && forall a | a in asked :: !TooSimilar(candidate, a)
  }

  /** `[q for q in fallbacks if q not in asked]` */
  function Unasked(fallbacks: seq<string>, asked: seq<string>): (r: seq<string>)
    ensures |r| <= |fallbacks|
    ensures forall q | q in r :: q in fallbacks && q !in asked
    ensures forall q | q in fallbacks && q !in asked :: q in r
  {
    if fallbacks == [] then []
    else (if fallbacks[0] !in asked then [fallbacks[0]] else []) + Unasked(fallbacks[1..], asked)
  }

  /**
   * A usable fallback list: no question twice, and at least as many
   * questions as a session asks, so one of them is still unasked whenever a
   * next question is chosen.
   */
  ghost predicate Pool(fallbacks: seq<string>) {
    Distinct(fallbacks) && |fallbacks| >= MaxQuestions
  }

  /** The built-in list is a usable pool. */
  lemma FallbackQuestionsPool()
    ensures Pool(FallbackQuestions)
  {
  }

  /** A fallback question not asked yet when there is one, otherwise any fallback question. */
  function FallbackChoice(fallbacks: seq<string>, asked: seq<string>, pick: nat): (q: string)
    requires fallbacks != []
    ensures q in fallbacks
    ensures Unasked(fallbacks, asked) != [] ==> q !in asked
  {
    var available := Unasked(fallbacks, asked);
    if available != [] then available[pick % |available|]
    else fallbacks[pick % |fallbacks|]
  }

  /** How the bounded retry loop ends. */
  datatype Search = Accepted(question: string) | Exhausted | Failed

  /** A generator call that returned a question the loop turns down. */
  predicate Rejected(g: Generated, asked: seq<string>) {
    g.Question? && !Acceptable(g.text, asked)
  }

  /** Every call from `from` up to `to` returned a question that was turned down. */
  predicate AllRejected(asked: seq<string>, generated: seq<Generated>, from: nat, to: nat)
    requires from <= to <= |generated|
  {
    forall j | from <= j < to :: Rejected(generated[j], asked)
  }

  /**
   * The retry loop from attempt `attempt` on: it accepts the first acceptable
   * question, stops at the first raise, and is exhausted when all three
   * attempts returned questions it turned down.
   */
  function SearchFrom(asked: seq<string>, generated: seq<Generated>, attempt: nat): (s: Search)
    requires attempt <= MaxAttempts <= |generated|
    ensures s.Accepted? ==> Acceptable(s.question, asked)
    ensures s.Accepted? ==>
      exists i | attempt <= i < MaxAttempts :: generated[i] == Question(s.question) && AllRejected(asked, generated, attempt, i)
    ensures s.Failed? ==>
      exists i | attempt <= i < MaxAttempts :: generated[i].Raised? && AllRejected(asked, generated, attempt, i)
    ensures s.Exhausted? ==> AllRejected(asked, generated, attempt, MaxAttempts)
    decreases MaxAttempts - attempt
  {
    if attempt == MaxAttempts then Exhausted
    else
      match generated[attempt]
      case Raised => Failed
      case Question(candidate) =>
        if Acceptable(candidate, asked) then Accepted(candidate)
        else SearchFrom(asked, generated, attempt + 1)
  }

  /**
   * Conversely, the first call that does not return a turned-down question
   * decides the loop: a raise fails it, an acceptable question is accepted.
   */
  lemma {:induction false} FirstDecidingCall(asked: seq<string>, generated: seq<Generated>, attempt: nat, i: nat)
    requires attempt <= i < MaxAttempts <= |generated|
    requires AllRejected(asked, generated, attempt, i) && !Rejected(generated[i], asked)
    ensures generated[i].Raised? ==> SearchFrom(asked, generated, attempt) == Failed
    ensures generated[i].Question? ==> SearchFrom(asked, generated, attempt) == Accepted(generated[i].text)
    decreases i - attempt
  {
    if attempt < i {
      assert Rejected(generated[attempt], asked);
      FirstDecidingCall(asked, generated, attempt + 1, i);
    }
  }

  /** Three turned-down questions exhaust the loop. */
  lemma {:induction false} AllRejectedExhausts(asked: seq<string>, generated: seq<Generated>, attempt: nat)
    requires attempt <= MaxAttempts <= |generated|
    requires AllRejected(asked, generated, attempt, MaxAttempts)
    ensures SearchFrom(asked, generated, attempt) == Exhausted
    decreases MaxAttempts - attempt
  {
    if attempt < MaxAttempts {
      assert Rejected(generated[attempt], asked);
      AllRejectedExhausts(asked, generated, attempt + 1);
    }
  }

  /**
   * The next question: `Continue` when the loop ended normally (the question
   * is recorded), `Recovered` when the generator raised (the question is
   * only sent).
   */
  datatype Outcome = Continue(question: string) | Recovered(question: string)

  function NextOutcome(fallbacks: seq<string>, asked: seq<string>, generated: seq<Generated>, pick: nat): (o: Outcome)
    requires fallbacks != [] && MaxAttempts <= |generated|
    ensures o.Recovered? ==> o.question == FallbackChoice(fallbacks, asked, pick)
    ensures o.Continue? ==>
      || (Acceptable(o.question, asked) && o.question != "" && exists i | 0 <= i < MaxAttempts :: generated[i] == Question(o.question))
      || o.question == FallbackChoice(fallbacks, asked, pick)
  {
    match SearchFrom(asked, generated, 0)
    case Failed => Recovered(FallbackChoice(fallbacks, asked, pick))
    case Accepted(q) => if q != "" then Continue(q) else Continue(FallbackChoice(fallbacks, asked, pick))
    case Exhausted => Continue(FallbackChoice(fallbacks, asked, pick))
  }

  /**
   * The next question is the first acceptable generated one when it is
   * non-empty; the fallback is sent when that one is empty or all three were
   * turned down, and sent without being recorded when a call raised first.
   */
  lemma NextOutcomeCases(fallbacks: seq<string>, asked: seq<string>, generated: seq<Generated>, pick: nat)
    requires fallbacks != [] && MaxAttempts <= |generated|
    ensures forall i | 0 <= i < MaxAttempts && AllRejected(asked, generated, 0, i) && !Rejected(generated[i], asked) ::
      && (generated[i].Raised? ==> NextOutcome(fallbacks, asked, generated, pick) == Recovered(FallbackChoice(fallbacks, asked, pick)))
      && (generated[i].Question? && generated[i].text != "" ==> NextOutcome(fallbacks, asked, generated, pick) == Continue(generated[i].text))
      && (generated[i].Question? && generated[i].text == "" ==> NextOutcome(fallbacks, asked, generated, pick) == Continue(FallbackChoice(fallbacks, asked, pick)))
    ensures AllRejected(asked, generated, 0, MaxAttempts) ==>
      NextOutcome(fallbacks, asked, generated, pick) == Continue(FallbackChoice(fallbacks, asked, pick))
  {
    forall i | 0 <= i < MaxAttempts && AllRejected(asked, generated, 0, i) && !Rejected(generated[i], asked) {
      FirstDecidingCall(asked, generated, 0, i);
    }
    if AllRejected(asked, generated, 0, MaxAttempts) {
      AllRejectedExhausts(asked, generated, 0);
    }
  }

  lemma {:induction false} SetOfSeqSize(s: seq<string>)
    ensures |set x | x in s| <= |s|
    decreases |s|
  {
    if s != [] {
      SetOfSeqSize(s[1..]);
      assert (set x | x in s) == {s[0]} + (set x | x in s[1..]);
    }
  }

  lemma {:induction false} SetOfDistinctSeqSize(s: seq<string>)
    requires Distinct(s)
    ensures |set x | x in s| == |s|
    decreases |s|
  {
    if s != [] {
      assert Distinct(s[1..]);
      SetOfDistinctSeqSize(s[1..]);
      assert s[0] !in s[1..];
      assert (set x | x in s) == {s[0]} + (set x | x in s[1..]);
    }
  }

  /** Fewer asked questions than distinct fallback ones leave a fallback question unasked. */
  lemma UnaskedNonEmpty(fallbacks: seq<string>, asked: seq<string>)
    requires Distinct(fallbacks) && |asked| < |fallbacks|
    ensures Unasked(fallbacks, asked) != []
  {
    var all := set x | x in fallbacks;
    var seen := set x | x in asked;
    SetOfDistinctSeqSize(fallbacks);
    SetOfSeqSize(asked);
    var rest := all - seen;
    assert |all| <= |seen| + |rest| by {
      assert all <= seen + rest;
    }
    var q :| q in rest;
    assert q in Unasked(fallbacks, asked);
  }

  /** Within a session the next question is never one already asked. */
  lemma NextQuestionIsNew(fallbacks: seq<string>, asked: seq<string>, generated: seq<Generated>, pick: nat)
    requires Pool(fallbacks) && MaxAttempts <= |generated|
    requires |asked| < MaxQuestions
    ensures NextOutcome(fallbacks, asked, generated, pick).question !in asked
  {
    UnaskedNonEmpty(fallbacks, asked);
  }

  lemma {:induction false} SearchReadsFirstAttempts(asked: seq<string>, g1: seq<Generated>, g2: seq<Generated>, attempt: nat)
    requires attempt <= MaxAttempts <= |g1| && MaxAttempts <= |g2|
    requires g1[..MaxAttempts] == g2[..MaxAttempts]
    ensures SearchFrom(asked, g1, attempt) == SearchFrom(asked, g2, attempt)
    decreases MaxAttempts - attempt
  {
    if attempt < MaxAttempts {
      assert g1[attempt] == g1[..MaxAttempts][attempt] == g2[attempt];
      SearchReadsFirstAttempts(asked, g1, g2, attempt + 1);
    }
  }

  /** Only the first three generator results matter: an answer makes at most three generator calls. */
  lemma NextOutcomeReadsFirstAttempts(fallbacks: seq<string>, asked: seq<string>, g1: seq<Generated>, g2: seq<Generated>, pick: nat)
    requires fallbacks != [] && MaxAttempts <= |g1| && MaxAttempts <= |g2|
    requires g1[..MaxAttempts] == g2[..MaxAttempts]
    ensures NextOutcome(fallbacks, asked, g1, pick) == NextOutcome(fallbacks, asked, g2, pick)
  {
    SearchReadsFirstAttempts(asked, g1, g2, 0);
  }

  /** The game after one answer (`None` when that answer ended it) and the reply sent. */
  datatype Step = Step(next: Option<GameState>, reply: string)

  /**
   * One answer to a running game: the count goes up by one and past five the
   * game is over with the thank-you message. Otherwise the reply is the next
   * question; on the normal path it becomes the current question and is
   * recorded, on the exception path it is only sent.
   */
  function AnswerStep(fallbacks: seq<string>, g: GameState, generated: seq<Generated>, pick: nat): (s: Step)
    requires fallbacks != [] && MaxAttempts <= |generated|
    ensures s.next.None? <==> g.questionCount + 1 > MaxQuestions
    ensures s.next.None? ==> s.reply == GameOverMessage
    ensures s.next.Some? ==> s.next.value.questionCount == g.questionCount + 1
    ensures s.next.Some? ==> s.reply == NextOutcome(fallbacks, g.askedQuestions, generated, pick).question
    ensures s.next.Some? && NextOutcome(fallbacks, g.askedQuestions, generated, pick).Continue? ==>
      s.next.value.currentQuestion == s.reply && s.next.value.askedQuestions == g.askedQuestions + [s.reply]
    ensures s.next.Some? && NextOutcome(fallbacks, g.askedQuestions, generated, pick).Recovered? ==>
      s.next.value.currentQuestion == g.currentQuestion && s.next.value.askedQuestions == g.askedQuestions
  {
    var count := g.questionCount + 1;
    if count > MaxQuestions then Step(None, GameOverMessage)
    else
      match NextOutcome(fallbacks, g.askedQuestions, generated, pick)
      case Continue(q) => Step(Some(GameState(q, count, g.askedQuestions + [q])), q)
      case Recovered(q) => Step(Some(g.(questionCount := count)), q)
  }

  /**
   * An answer keeps the game valid and counts exactly one more question; the
   * game ends exactly on the answer to question 5; the next question is never
   * one already asked; and on the normal path `len(asked) == count` is kept.
   */
  lemma AnswerStepPreserves(fallbacks: seq<string>, g: GameState, generated: seq<Generated>, pick: nat)
    requires Pool(fallbacks) && g.Valid() && MaxAttempts <= |generated|
    ensures var step := AnswerStep(fallbacks, g, generated, pick);
      && (step.next.None? <==> g.questionCount == MaxQuestions)
      && (step.next.None? ==> step.reply == GameOverMessage)
      && (step.next.Some? ==> step.next.value.Valid() && step.next.value.questionCount == g.questionCount + 1)
      && (step.next.Some? ==> step.reply !in g.askedQuestions)
      && (step.next.Some? && NextOutcome(fallbacks, g.askedQuestions, generated, pick).Continue? &&
          |g.askedQuestions| == g.questionCount
          ==> |step.next.value.askedQuestions| == g.questionCount + 1)
  {
    if g.questionCount < MaxQuestions {
      NextQuestionIsNew(fallbacks, g.askedQuestions, generated, pick);
    }
  }

  /** The generator results and random picks for one answer. */
  datatype Round = Round(generated: seq<Generated>, pick: nat)

  /** The game after a run of answers, `None` once one of them has ended it. */
  function Play(fallbacks: seq<string>, g: GameState, rounds: seq<Round>): Option<GameState>
    requires fallbacks != []
    requires forall r | r in rounds :: MaxAttempts <= |r.generated|
    decreases |rounds|
  {
    if rounds == [] then Some(g)
    else
      var next := AnswerStep(fallbacks, g, rounds[0].generated, rounds[0].pick).next;
      if next.None? then None else Play(fallbacks, next.value, rounds[1..])
  }

  /**
   * A game at question `n` survives exactly `5 - n` more answers: a new game
   * (question 1) ends on the fifth answer, whatever the generator did.
   */
  lemma {:induction false} GameLength(fallbacks: seq<string>, g: GameState, rounds: seq<Round>)
    requires Pool(fallbacks) && g.Valid()
    requires forall r | r in rounds :: MaxAttempts <= |r.generated|
    ensures Play(fallbacks, g, rounds).Some? <==> |rounds| <= MaxQuestions - g.questionCount
    decreases |rounds|
  {
    if rounds != [] {
      AnswerStepPreserves(fallbacks, g, rounds[0].generated, rounds[0].pick);
      var next := AnswerStep(fallbacks, g, rounds[0].generated, rounds[0].pick).next;
      if next.Some? {
        assert forall r | r in rounds[1..] :: r in rounds;
        GameLength(fallbacks, next.value, rounds[1..]);
      }
    }
  }

  /** The similarity scan over the asked questions, stopping at the first near-repeat. */
  method SimilarToAny(candidate: string, asked: seq<string>) returns (similar: bool)
    ensures similar <==> exists a | a in asked :: TooSimilar(candidate, a)
  {
    similar := false;
    for i := 0 to |asked|
      invariant forall j | 0 <= j < i :: !TooSimilar(candidate, asked[j])
    {
      if |WordSet(candidate) * WordSet(asked[i])| > MaxSharedWords {
        assert TooSimilar(candidate, asked[i]);
        similar := true;
        break;
      }
    }
  }

  /** The retry loop of `handle_answer` and the fallback after it. */
  method ChooseNext(fallbacks: seq<string>, asked: seq<string>, generated: seq<Generated>, pick: nat) returns (outcome: Outcome)
    requires fallbacks != [] && MaxAttempts <= |generated|
    ensures outcome == NextOutcome(fallbacks, asked, generated, pick)
  {
    var attempts := 0;
    var nextQuestion := "";
    while attempts < MaxAttempts
      invariant 0 <= attempts <= MaxAttempts
      invariant SearchFrom(asked, generated, 0) == SearchFrom(asked, generated, attempts)
    {
      match generated[attempts] {
        case Raised =>
          return Recovered(FallbackChoice(fallbacks, asked, pick));
        case Question(candidate) =>
          nextQuestion := candidate;
      }
      if nextQuestion !in asked {
        var similar := SimilarToAny(nextQuestion, asked);
        if !similar {
          break;
        }
      }
      attempts := attempts + 1;
    }
    if attempts >= MaxAttempts || nextQuestion == "" {
      var available := Unasked(fallbacks, asked);
      if available != [] {
        nextQuestion := available[pick % |available|];
      } else {
        nextQuestion := fallbacks[pick % |fallbacks|];
      }
    }
    outcome := Continue(nextQuestion);
  }

  /** The first question of a game: the generated one, or a random fallback question if the generator raised. */
  function StartQuestion(fallbacks: seq<string>, generated: Generated, pick: nat): (q: string)
    requires fallbacks != []
    ensures generated.Question? ==> q == generated.text
    ensures generated.Raised? ==> q in fallbacks
  {
    match generated
    case Question(text) => text
    case Raised => fallbacks[pick % |fallbacks|]
  }

  /** What `handle_answer` replies: a first question without a game, otherwise the step's reply. */
  function AnswerReply(fallbacks: seq<string>, games: map<int, GameState>, userId: int, oracle: Oracle): (r: string)
    requires fallbacks != [] && MaxAttempts <= |oracle.generated|
    ensures userId in games && games[userId].questionCount >= MaxQuestions ==> r == GameOverMessage
    ensures r == GameOverMessage || r in fallbacks || exists i | 0 <= i < MaxAttempts :: oracle.generated[i] == Question(r)
  {
    if userId !in games then StartQuestion(fallbacks, oracle.generated[0], oracle.pick)
    else AnswerStep(fallbacks, games[userId], oracle.generated, oracle.pick).reply
  }

  /** `active_games` after `handle_answer`. */
  function GamesAfterAnswer(fallbacks: seq<string>, games: map<int, GameState>, userId: int, oracle: Oracle): (r: map<int, GameState>)
    requires fallbacks != [] && MaxAttempts <= |oracle.generated|
    ensures forall u | u != userId :: (u in r <==> u in games)
    ensures forall u | u != userId && u in r :: r[u] == games[u]
    ensures userId !in games ==> userId in r && r[userId].questionCount == 1 && r[userId].askedQuestions == [r[userId].currentQuestion]
    ensures userId in games ==> (userId in r <==> games[userId].questionCount < MaxQuestions)
    ensures userId in games && userId in r ==> r[userId].questionCount == games[userId].questionCount + 1
  {
    if userId !in games then
      var q := StartQuestion(fallbacks, oracle.generated[0], oracle.pick);
      games[userId := GameState(q, 1, [q])]
    else
      var step := AnswerStep(fallbacks, games[userId], oracle.generated, oracle.pick);
      if step.next.Some? then games[userId := step.next.value] else games - {userId}
  }

  /**
   * The reply to the answer that ends a game contains the game-over words,
   * and the user's game is removed exactly when an answer ends it.
   */
  lemma GameOverReplyIsMarked(fallbacks: seq<string>, games: map<int, GameState>, userId: int, oracle: Oracle)
    requires fallbacks != [] && MaxAttempts <= |oracle.generated|
    requires userId in games
    ensures AnswerStep(fallbacks, games[userId], oracle.generated, oracle.pick).next.None? ==>
      Contains(AnswerReply(fallbacks, games, userId, oracle), GameOverMarker)
    ensures userId !in GamesAfterAnswer(fallbacks, games, userId, oracle) <==>
      AnswerStep(fallbacks, games[userId], oracle.generated, oracle.pick).next.None?
  {
    assert GameOverMessage[..|GameOverMarker|] == GameOverMarker;
  }

  /** The metadata an answer is stored with. */
  function AnswerMetadata(g: GameState, userId: int): Metadata {
    Metadata(None, None, None,
      map["question" := Str(g.currentQuestion), "question_number" := Num(g.questionCount), "user_id" := Num(userId)])
  }

  /**
   * The store after `handle_answer`: with a game, the answer is inserted into
   * the game collection under the oracle's id, unless the text is empty, the
   * store fails or already holds that id; without a game nothing is stored.
   */
  function CollectionsAfterAnswer(collections: map<Database.Collection, map<string, Doc>>, games: map<int, GameState>,
                                  userId: int, answer: string, oracle: Oracle): (r: map<Database.Collection, map<string, Doc>>)
    requires Database.Game in collections
    ensures r.Keys == collections.Keys
    ensures forall c | c in collections && c != Database.Game :: r[c] == collections[c]
    ensures userId !in games || answer == "" || oracle.storeFault ==> r == collections
  {
    if userId in games && answer != "" && !oracle.storeFault && oracle.entryId !in collections[Database.Game] then
      var metadata := AnswerMetadata(games[userId], userId);
      var doc := Database.NewDocument(oracle.entryId, answer, Database.ShapeMetadata(Some(metadata), answer, oracle.now, None));
      collections[Database.Game := collections[Database.Game][oracle.entryId := doc]]
    else collections
  }

  /**
   * A stored answer is the answer text under the oracle's id, tagged with the
   * question it answers, that question's number (before the increment) and
   * the user; nothing else in the game collection changes.
   */
  lemma StoredAnswerRecordsQuestion(collections: map<Database.Collection, map<string, Doc>>, games: map<int, GameState>,
                                    userId: int, answer: string, oracle: Oracle)
    requires Database.Game in collections && userId in games
    requires answer != "" && !oracle.storeFault && oracle.entryId !in collections[Database.Game]
    ensures var r := CollectionsAfterAnswer(collections, games, userId, answer, oracle);
      && oracle.entryId in r[Database.Game]
      && r[Database.Game] - {oracle.entryId} == collections[Database.Game]
      && var d := r[Database.Game][oracle.entryId];
      && d.id == Some(oracle.entryId) && d.text == Some(answer)
      && d.metadata.Some? && d.metadata.value.text == Some(answer) && d.metadata.value.createdAt == Some(oracle.now)
      && d.metadata.value.extra == map["question" := Str(games[userId].currentQuestion),
                                       "question_number" := Num(games[userId].questionCount),
                                       "user_id" := Num(userId)]
  {
    var r := CollectionsAfterAnswer(collections, games, userId, answer, oracle);
    assert r[Database.Game] - {oracle.entryId} == collections[Database.Game];
  }

  /** `GameService`: `active_games` by user id, the fallback questions, and the store the answers go to. */
  class GameService {
    const db: Database.DatabaseService
    const fallbackQuestions: seq<string>
    var activeGames: map<int, GameState>

    ghost predicate Valid()
      reads this, db
    {
      && db.Valid()
      && Pool(fallbackQuestions)
      && forall u | u in activeGames :: activeGames[u].Valid()
    }

    constructor (db: Database.DatabaseService)
      requires db.Valid()
      ensures Valid()
      ensures this.db == db && fallbackQuestions == FallbackQuestions && activeGames == map[]
    {
      this.db := db;
      fallbackQuestions := FallbackQuestions;
      activeGames := map[];
      FallbackQuestionsPool();
    }

    /**
     * `start_game`: the generated question, or a random fallback question if
     * the generator raised, becomes question 1 of a fresh game.
     */
    method StartGame(userId: int, generated: Generated, pick: nat) returns (question: string)
      requires Valid()
      modifies this
      ensures Valid()
      ensures question == StartQuestion(fallbackQuestions, generated, pick)
      ensures activeGames == old(activeGames)[userId := GameState(question, 1, [question])]
    {
      match generated {
        case Question(q) => question := q;
        case Raised => question := fallbackQuestions[pick % |fallbackQuestions|];
      }
      activeGames := activeGames[userId := GameState(question, 1, [question])];
    }

    /**
     * `handle_answer`. Without a game it starts one and stores nothing.
     * Otherwise it stores the answer under the current question and its
     * number, counts one more question, and either ends the game (the count
     * passed 5) or records and returns the next question; when the generator
     * raised, the fallback question is returned without being recorded.
     */
    method HandleAnswer(userId: int, answer: string, oracle: Oracle) returns (reply: string)
      requires Valid()
      requires MaxAttempts <= |oracle.generated|
      modifies this, db
      ensures Valid()
      ensures reply == AnswerReply(fallbackQuestions, old(activeGames), userId, oracle)
      ensures activeGames == GamesAfterAnswer(fallbackQuestions, old(activeGames), userId, oracle)
      ensures userId !in old(activeGames) ==> db.collections == old(db.collections)
      ensures db.collections == CollectionsAfterAnswer(old(db.collections), old(activeGames), userId, answer, oracle)
    {
      if userId !in activeGames {
        reply := StartGame(userId, oracle.generated[0], oracle.pick);
        return;
      }
      var gameState := activeGames[userId];
      var stored := db.StoreEntry(Database.GameCollectionName, answer, Some(AnswerMetadata(gameState, userId)), None,
                                  oracle.entryId, oracle.now, oracle.storeFault);
      AnswerStepPreserves(fallbackQuestions, gameState, oracle.generated, oracle.pick);
      gameState := gameState.(questionCount := gameState.questionCount + 1);
      if gameState.questionCount > MaxQuestions {
        activeGames := activeGames - {userId};
        return GameOverMessage;
      }
      activeGames := activeGames[userId := gameState];
      var outcome := ChooseNext(fallbackQuestions, gameState.askedQuestions, oracle.generated, oracle.pick);
      match outcome {
        case Continue(q) =>
          activeGames := activeGames[userId := GameState(q, gameState.questionCount, gameState.askedQuestions + [q])];
          reply := q;
        case Recovered(q) =>
          reply := q;
      }
    }
  }
}
