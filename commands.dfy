/**
 * handlers/command_handler.py: the mode commands, `/list`, `/delete` (the
 * candidate map and the inline keyboard) and `/category`, with the display
 * shaping they share.
 */
module Commands {
  import opened Wrappers
  import opened Text
  import opened Documents
  import opened Session
  import Database
  import Game
  import Classification
  import Claude

  /** Display text is cut to this many characters. */
  const TruncateAt := 100
  const Ellipsis := "..."

  /** Display truncation: past 100 characters, the first 100 and `"..."`. */
  function Truncate(text: string): (r: string)
    ensures |text| <= TruncateAt ==> r == text
    ensures |text| > TruncateAt ==>
      |r| == TruncateAt + |Ellipsis| && r[..TruncateAt] == text[..TruncateAt] && r[TruncateAt..] == Ellipsis
  {
    if |text| > TruncateAt then text[..TruncateAt] + Ellipsis else text
  }

  /** A truncated text is short enough, keeps the text's start, and truncating again changes nothing. */
  lemma TruncateBounds(text: string)
    ensures |Truncate(text)| <= TruncateAt + |Ellipsis|
    ensures Truncate(Truncate(text)) == Truncate(text)
    ensures var n := if |text| < TruncateAt then |text| else TruncateAt;
      Truncate(text)[..n] == text[..n]
  {
    if |text| > TruncateAt {
      var r := Truncate(text);
      assert r[..TruncateAt] == text[..TruncateAt];
      assert Truncate(r) == r[..TruncateAt] + Ellipsis;
    }
  }

  /** The text a listing shows: `metadata.text` when present, else the top-level `text`, else `""`. */
  function DisplayText(d: Doc): (r: string)
    ensures MetadataText(d).Some? ==> r == MetadataText(d).value
    ensures MetadataText(d).None? ==> r == d.text.GetOr("")
  {
    match MetadataText(d)
    case Some(t) => t
    case None => d.text.GetOr("")
  }

  /**
   * For a document as `store_entry` writes it, the listing's choice and the
   * chat context's choice of text agree on the stored text.
   */
  lemma StoredTextAgrees(id: string, text: string, metadata: Option<Metadata>, now: string, categories: Option<seq<string>>)
    ensures var d := Database.NewDocument(id, text, Database.ShapeMetadata(metadata, text, now, categories));
      DisplayText(d) == text && Claude.EntryText(d) == text
  {
  }

  /** Which optional parts a listing's lines carry. */
  datatype Style = Style(timestamp: bool, categories: bool)

  /** `/list`: date and categories. */
  const ListStyle := Style(true, true)
  /** `/delete`: categories only. */
  const DeleteStyle := Style(false, true)
  /** `/category`: date only. */
  const CategoryStyle := Style(true, false)

  /** `" (" + created_at[:10] + ")"` when the metadata has a creation time. */
  function Timestamp(d: Doc): string {
    match MetadataCreatedAt(d)
    case Some(t) => " (" + Prefix(t, 10) + ")"
    case None => ""
  }

  /** `" [" + ", ".join(categories) + "]"` when the metadata has a categories entry, even an empty one. */
  function CategoryTag(d: Doc): string {
    match MetadataCategories(d)
    case Some(cats) => " [" + Join(", ", cats) + "]"
    case None => ""
  }

  /** One numbered line of a listing. */
  function Line(style: Style, i: nat, d: Doc): (line: string)
    ensures var head := NatToString(i) + ".";
      StartsWith(line, head)
    ensures var tail := " " + Truncate(DisplayText(d)) + "\n\n";
      |tail| <= |line| && line[|line| - |tail|..] == tail
  {
    var head := NatToString(i) + ".";
    var middle := (if style.timestamp then Timestamp(d) else "") + (if style.categories then CategoryTag(d) else "");
    var tail := " " + Truncate(DisplayText(d)) + "\n\n";
    assert (head + middle + tail)[..|head|] == head;
    assert (head + middle + tail)[|head + middle|..] == tail;
    head + middle + tail
  }

  /** The lines for `docs`, numbered from 1, in order. */
  function Lines(style: Style, docs: seq<Doc>): string
    decreases |docs|
  {
    if docs == [] then ""
    else Lines(style, docs[..|docs| - 1]) + Line(style, |docs|, docs[|docs| - 1])
  }

  /** Every document has its own line, with its number, in the listing. */
  lemma {:induction false} EveryThoughtListed(style: Style, docs: seq<Doc>, i: nat)
    requires i < |docs|
    ensures Contains(Lines(style, docs), Line(style, i + 1, docs[i]))
    decreases |docs|
  {
    var init := docs[..|docs| - 1];
    if i == |docs| - 1 {
      ContainsInfix(Lines(style, init), Line(style, i + 1, docs[i]), "");
      assert Lines(style, init) + Line(style, i + 1, docs[i]) + "" == Lines(style, docs);
    } else {
      EveryThoughtListed(style, init, i);
      assert init[i] == docs[i];
      ContainsExtended(Lines(style, init), Line(style, |docs|, docs[|docs| - 1]), Line(style, i + 1, docs[i]));
    }
  }

  /** One more document appends its line after the header and the lines before it. */
  lemma LinesSnoc(header: string, style: Style, docs: seq<Doc>, i: nat)
    requires i < |docs|
    ensures header + Lines(style, docs[..i + 1]) == header + Lines(style, docs[..i]) + Line(style, i + 1, docs[i])
  {
    assert docs[..i + 1][..i] == docs[..i];
  }

  /** The listing loop shared by `/list`, `/delete` and `/category`. */
  method FormatThoughts(header: string, style: Style, docs: seq<Doc>) returns (text: string)
    ensures text == header + Lines(style, docs)
  {
    text := header;
    var i := 0;
    while i < |docs|
      invariant 0 <= i <= |docs|
      invariant text == header + Lines(style, docs[..i])
    {
      var line := Line(style, i + 1, docs[i]);
      LinesSnoc(header, style, docs, i);
      text := text + line;
      i := i + 1;
    }
    assert docs[..i] == docs;
  }

  /** `USER_THOUGHTS[user_id]` after `/delete`: position `i` (from 1) to the `i`-th thought. */
  function CandidateMap(thoughts: seq<Doc>): (m: map<int, Doc>)
    ensures forall k :: k in m <==> 1 <= k <= |thoughts|
    ensures forall k | k in m :: m[k] == thoughts[k - 1]
  {
    map k | 1 <= k <= |thoughts| :: Nth(thoughts, k)
  }

  /** The `k`-th thought, counting from 1. */
  function Nth(thoughts: seq<Doc>, k: int): Doc
    requires 1 <= k <= |thoughts|
  {
    thoughts[k - 1]
  }

  /** An inline keyboard button: its text and its callback payload. */
  datatype Button = Button(text: string, data: string)

  /** The button selecting thought `i`. */
  function NumberButton(i: nat): Button {
    Button(NatToString(i), "delete_" + NatToString(i))
  }

  const CancelButton := Button("Cancel", "delete_cancel")

  /** Numbered buttons per keyboard row. */
  const RowWidth := 3

  /** The numbered buttons `lo + 1 .. hi`. */
  function Buttons(lo: nat, hi: nat): (r: seq<Button>)
    requires lo <= hi
    ensures |r| == hi - lo
    ensures forall j | 0 <= j < |r| :: r[j] == NumberButton(lo + j + 1)
  {
    seq(hi - lo, j requires 0 <= j < hi - lo => NumberButton(lo + j + 1))
  }

  function Min(a: int, b: int): int {
    if a < b then a else b
  }

  /** Rows of numbered buttons for `n` thoughts: `ceil(n / 3)`. */
  function NumberRows(n: nat): nat {
    (n + RowWidth - 1) / RowWidth
  }

  /** Row `r` of the numbered buttons for `n` thoughts. */
  function Row(r: nat, n: nat): seq<Button>
    requires r < NumberRows(n)
  {
    Buttons(RowWidth * r, Min(RowWidth * r + RowWidth, n))
  }

  /** The `/delete` keyboard: the numbered rows, then a row holding only Cancel. */
  function Keyboard(n: nat): seq<seq<Button>> {
    seq(NumberRows(n), r requires 0 <= r < NumberRows(n) => Row(r, n)) + [[CancelButton]]
  }

  /** The buttons of `rows`, row after row. */
  function Flatten(rows: seq<seq<Button>>): seq<Button>
    decreases |rows|
  {
    if rows == [] then [] else Flatten(rows[..|rows| - 1]) + rows[|rows| - 1]
  }

  lemma ButtonsSplit(lo: nat, mid: nat, hi: nat)
    requires lo <= mid <= hi
    ensures Buttons(lo, mid) + Buttons(mid, hi) == Buttons(lo, hi)
  {
    assert forall j | 0 <= j < hi - lo :: (Buttons(lo, mid) + Buttons(mid, hi))[j] == NumberButton(lo + j + 1);
  }

  lemma {:induction false} FlattenRows(n: nat, k: nat)
    requires k <= NumberRows(n)
    ensures Flatten(Keyboard(n)[..k]) == Buttons(0, Min(RowWidth * k, n))
    decreases k
  {
    if k > 0 {
      FlattenRows(n, k - 1);
      assert Keyboard(n)[..k][..k - 1] == Keyboard(n)[..k - 1];
      ButtonsSplit(0, RowWidth * (k - 1), Min(RowWidth * k, n));
    }
  }

  /**
   * The keyboard for `n` thoughts: `ceil(n / 3) + 1` rows; the numbered rows
   * hold `delete_1 .. delete_n` in order, three to a row except perhaps the
   * last; the final row holds only Cancel.
   */
  lemma KeyboardLayout(n: nat)
    ensures |Keyboard(n)| == NumberRows(n) + 1
    ensures Keyboard(n)[NumberRows(n)] == [CancelButton]
    ensures Flatten(Keyboard(n)[..NumberRows(n)]) == Buttons(0, n)
    ensures forall r | 0 <= r < NumberRows(n) :: 1 <= |Keyboard(n)[r]| <= RowWidth
    ensures forall r | 0 <= r < NumberRows(n) - 1 :: |Keyboard(n)[r]| == RowWidth
  {
    FlattenRows(n, NumberRows(n));
  }

  /** The keyboard loop of `delete_command`. */
  method BuildKeyboard(n: nat) returns (keyboard: seq<seq<Button>>)
    ensures keyboard == Keyboard(n)
  {
    keyboard := [];
    var row: seq<Button> := [];
    for i := 1 to n + 1
      invariant i == 1 ==> keyboard == [] && row == []
      invariant i > 1 ==> |keyboard| == (i - 2) / RowWidth && row == Buttons(RowWidth * ((i - 2) / RowWidth), i - 1)
      invariant forall r | 0 <= r < |keyboard| :: keyboard[r] == Buttons(RowWidth * r, RowWidth * r + RowWidth)
    {
      if |row| == RowWidth {
        keyboard := keyboard + [row];
        row := [];
      }
      row := row + [NumberButton(i)];
    }
    if row != [] {
      keyboard := keyboard + [row];
    }
    keyboard := keyboard + [[CancelButton]];
    assert |keyboard| == |Keyboard(n)|;
    assert forall r | 0 <= r < |keyboard| :: keyboard[r] == Keyboard(n)[r];
  }

  /** How `/category` reads its argument. */
  datatype CategoryArg = Missing | Unknown(category: string) | Known(category: string)

  /** The argument lowercased and checked against the four categories. */
  function CheckCategoryArg(args: seq<string>): (r: CategoryArg)
    ensures r.Missing? <==> args == []
    ensures !r.Missing? ==> r.category == Lower(args[0])
    ensures r.Known? <==> args != [] && Lower(args[0]) in Classification.Categories
  {
    if args == [] then Missing
    else
      var category := Lower(args[0]);
      if category in Classification.Categories then Known(category) else Unknown(category)
  }

  const NoThoughtsText := "You don't have any stored thoughts yet."
  const ListHeader := "Your recent thoughts:\n\n"
  const DeleteHeader := "Select a thought to delete:\n\n"
  const CategoryUsage :=
    "Please specify a category:\n/category work - work-related thoughts\n/category health - health-related thoughts\n" +
    "/category relationships - relationship-related thoughts\n/category purpose - purpose-related thoughts"

  function UnknownCategoryText(category: string): string {
    "'" + category + "' is not a valid category. Please use one of: " + Join(", ", Classification.Categories)
  }

  function NoCategoryThoughtsText(category: string): string {
    "You don't have any thoughts categorized as '" + category + "' yet."
  }

  function CategoryHeader(category: string): string {
    "Your thoughts related to " + category + ":\n\n"
  }

  /** The first page of ten thoughts, as `get_all_entries(page=1, page_size=10)` returns it. */
  function RecentThoughts(listing: seq<Doc>, fault: bool): (r: seq<Doc>)
    ensures |r| <= PageSize
    ensures !fault ==> r == listing[..Min(|listing|, PageSize)]
  {
    if fault then [] else Database.Window(listing, Database.PageSkip(1, PageSize), PageSize)
  }

  /** With a stored thought and no failure, `/list` and `/delete` have something to show: `/delete` enters delete mode. */
  lemma StoredThoughtShown(listing: seq<Doc>, docs: map<string, Doc>, fault: bool)
    requires Database.Lists(listing, docs) && docs != map[] && !fault
    ensures RecentThoughts(listing, fault) != []
  {
    Database.ListsEmpty(listing, docs);
  }

  /** A stored thought tagged with the category means `/category` has something to show. */
  lemma TaggedThoughtShown(listing: seq<Doc>, docs: map<string, Doc>, category: string, k: string)
    requires Database.Lists(listing, docs) && k in docs
    requires MetadataCategories(docs[k]).Some? && category in MetadataCategories(docs[k]).value
    ensures Database.Window(Database.WithCategory(listing, category), 0, PageSize) != []
  {
    Database.StoredIsListed(listing, docs, k);
    assert docs[k] in Database.WithCategory(listing, category);
  }

  /** `CommandHandler`, over the shared tables, the store and the game service. */
  class CommandHandler {
    const tables: Tables
    const db: Database.DatabaseService
    const games: Game.GameService

    ghost predicate Valid()
      reads this, tables, db, games, games.db
    {
      tables.Valid() && games.Valid() && games.db == db
    }

    constructor (tables: Tables, games: Game.GameService)
      requires tables.Valid() && games.Valid()
      ensures Valid()
      ensures this.tables == tables && this.games == games && db == games.db
    {
      this.tables := tables;
      this.games := games;
      db := games.db;
    }

    /** `/start`: back to normal mode. */
    method StartCommand(userId: int)
      requires Valid()
      modifies tables
      ensures Valid()
      ensures tables.userState == old(tables.userState)[userId := Normal]
      ensures tables.userThoughts == old(tables.userThoughts)
    {
      tables.userState := tables.userState[userId := Normal];
    }

    /** `/chat` */
    method ChatCommand(userId: int)
      requires Valid()
      modifies tables
      ensures Valid()
      ensures tables.userState == old(tables.userState)[userId := Chat]
      ensures tables.userThoughts == old(tables.userThoughts)
    {
      tables.userState := tables.userState[userId := Chat];
    }

    /** `/normal` */
    method NormalCommand(userId: int)
      requires Valid()
      modifies tables
      ensures Valid()
      ensures tables.userState == old(tables.userState)[userId := Normal]
      ensures tables.userThoughts == old(tables.userThoughts)
    {
      tables.userState := tables.userState[userId := Normal];
    }

    /** `/game`: game mode, then a fresh game whose first question is returned. */
    method GameCommand(userId: int, generated: Game.Generated, pick: nat) returns (question: string)
      requires Valid()
      modifies tables, games
      ensures Valid()
      ensures tables.userState == old(tables.userState)[userId := Session.Game]
      ensures tables.userThoughts == old(tables.userThoughts)
      ensures question == Game.StartQuestion(games.fallbackQuestions, generated, pick)
      ensures games.activeGames == old(games.activeGames)[userId := Game.GameState(question, 1, [question])]
    {
      tables.userState := tables.userState[userId := Session.Game];
      question := games.StartGame(userId, generated, pick);
    }

    /** `/list`: the first ten thoughts, or a note that there are none. Writes no table. */
    method ListCommand(listing: seq<Doc>, fault: bool) returns (reply: string)
      requires Valid()
      requires Database.Lists(listing, db.collections[Database.Thoughts])
      ensures var thoughts := RecentThoughts(listing, fault);
        reply == if thoughts == [] then NoThoughtsText else ListHeader + Lines(ListStyle, thoughts)
    {
      var thoughts := db.GetAllEntries(Database.ThoughtsCollectionName, 1, PageSize, listing, fault);
      if thoughts == [] {
        return NoThoughtsText;
      }
      reply := FormatThoughts(ListHeader, ListStyle, thoughts);
    }

    /**
     * `/delete`: with no thoughts, back to normal mode and the candidate map
     * untouched; otherwise delete mode, the candidate map `1..N`, the
     * numbered listing and the keyboard.
     */
    method DeleteCommand(userId: int, listing: seq<Doc>, fault: bool) returns (reply: string, keyboard: seq<seq<Button>>)
      requires Valid()
      requires Database.Lists(listing, db.collections[Database.Thoughts])
      modifies tables
      ensures Valid()
      ensures var thoughts := RecentThoughts(listing, fault);
        if thoughts == [] then
          && tables.userState == old(tables.userState)[userId := Normal]
          && tables.userThoughts == old(tables.userThoughts)
          && reply == NoThoughtsText && keyboard == []
        else
          && tables.userState == old(tables.userState)[userId := Delete]
          && tables.userThoughts == old(tables.userThoughts)[userId := CandidateMap(thoughts)]
          && reply == DeleteHeader + Lines(DeleteStyle, thoughts)
          && keyboard == Keyboard(|thoughts|)
      ensures db.collections[Database.Thoughts] != map[] && !fault ==> tables.userState[userId] == Delete
    {
      if db.collections[Database.Thoughts] != map[] && !fault {
        StoredThoughtShown(listing, db.collections[Database.Thoughts], fault);
      }
      tables.userState := tables.userState[userId := Delete];
      var thoughts := db.GetAllEntries(Database.ThoughtsCollectionName, 1, PageSize, listing, fault);
      if thoughts == [] {
        tables.userState := tables.userState[userId := Normal];
        return NoThoughtsText, [];
      }
      tables.userThoughts := tables.userThoughts[userId := CandidateMap(thoughts)];
      reply := FormatThoughts(DeleteHeader, DeleteStyle, thoughts);
      keyboard := BuildKeyboard(|thoughts|);
    }

    /** `/category <name>`: usage, an invalid-name reply without a search, or the first ten tagged thoughts. Writes no table. */
    method CategoryCommand(args: seq<string>, listing: seq<Doc>, fault: bool) returns (reply: string)
      requires Valid()
      requires Database.Lists(listing, db.collections[Database.Thoughts])
      ensures CheckCategoryArg(args).Missing? ==> reply == CategoryUsage
      ensures CheckCategoryArg(args).Unknown? ==> reply == UnknownCategoryText(CheckCategoryArg(args).category)
      ensures CheckCategoryArg(args).Known? ==>
        var c := CheckCategoryArg(args).category;
        var thoughts := if fault then [] else Database.Window(Database.WithCategory(listing, c), 0, PageSize);
        reply == if thoughts == [] then NoCategoryThoughtsText(c) else CategoryHeader(c) + Lines(CategoryStyle, thoughts)
    {
      var arg := CheckCategoryArg(args);
      if arg.Missing? {
        return CategoryUsage;
      }
      if arg.Unknown? {
        return UnknownCategoryText(arg.category);
      }
      var category := arg.category;
      var thoughts := db.SearchByCategory(Database.ThoughtsCollectionName, category, PageSize, listing, fault);
      if thoughts == [] {
        return NoCategoryThoughtsText(category);
      }
      reply := FormatThoughts(CategoryHeader(category), CategoryStyle, thoughts);
    }
  }
}
