/**
 * handlers/callback_handler.py: the inline-keyboard callbacks of the
 * `/delete` flow. A `delete_<n>` payload deletes the `n`-th candidate the
 * last `/delete` listed; `delete_cancel` and every failure go back to
 * normal mode.
 */
module Callbacks {
  import opened Wrappers
  import opened Text
  import opened Documents
  import opened Session
  import Database
  import Commands

  const DeletePrefix := "delete_"
  const CancelWord := "cancel"

  /** What a callback payload asks for. */
  datatype Selection = NotDelete | Cancel | NotANumber | Index(n: int)

  /**
   * `data.startswith("delete_")`, then `data.replace("delete_", "")` (which
   * removes every occurrence), then the `"cancel"` test and `int(...)`.
   */
  function ParseCallbackData(data: string): (sel: Selection)
    ensures sel.NotDelete? <==> !StartsWith(data, DeletePrefix)
    ensures sel.Cancel? <==> StartsWith(data, DeletePrefix) && RemoveAll(data, DeletePrefix) == CancelWord
    ensures sel.Index? <==>
      StartsWith(data, DeletePrefix) && RemoveAll(data, DeletePrefix) != CancelWord && ParseInt(RemoveAll(data, DeletePrefix)).Some?
    ensures sel.Index? ==> ParseInt(RemoveAll(data, DeletePrefix)) == Some(sel.n)
  {
    if !StartsWith(data, DeletePrefix) then NotDelete
    else
      var thoughtNum := RemoveAll(data, DeletePrefix);
      if thoughtNum == CancelWord then Cancel
      else
        match ParseInt(thoughtNum)
        case None => NotANumber
        case Some(n) => Index(n)
  }

  lemma RemovePrefixOnce(s: string)
    requires forall i | 0 <= i < |s| :: s[i] != DeletePrefix[0]
    ensures RemoveAll(DeletePrefix + s, DeletePrefix) == s
  {
    var data := DeletePrefix + s;
    assert StartsWith(data, DeletePrefix);
    assert data[|DeletePrefix|..] == s;
    RemoveAllAbsent(s, DeletePrefix);
  }

  /** The payload of the button for thought `i` selects thought `i`. */
  lemma NumberButtonSelects(i: nat)
    ensures ParseCallbackData(Commands.NumberButton(i).data) == Index(i)
  {
    var digits := NatToString(i);
    RemovePrefixOnce(digits);
    assert digits != CancelWord by {
      assert IsDigit(digits[0]);
    }
    ParseIntOfNatToString(i);
  }

  /** The Cancel button's payload cancels. */
  lemma CancelButtonCancels()
    ensures ParseCallbackData(Commands.CancelButton.data) == Cancel
  {
    assert Commands.CancelButton.data == DeletePrefix + CancelWord;
    RemovePrefixOnce(CancelWord);
  }

  const CanceledText := "Deletion canceled. You're back in normal mode."
  const UnavailableText := "This thought is no longer available."
  const NoIdText := "Could not find the thought ID. Please try again."
  const ErrorText := "An error occurred while deleting the thought."
  const DeletedText := "\U{2705} Thought deleted successfully."
  const FailedText := "\U{274C} Failed to delete the thought. Please try again."

  /** `USER_THOUGHTS.get(user_id)` */
  function Candidates(userThoughts: map<int, map<int, Doc>>, userId: int): Option<map<int, Doc>> {
    if userId in userThoughts then Some(userThoughts[userId]) else None
  }

  /** What the handler does with a selection: nothing, a reset to normal mode with a message, or a deletion. */
  datatype Action = Ignore | Reset(reply: string) | Remove(id: string)

  /**
   * The guarded early returns: only a number that is a key of the user's
   * candidate map, whose candidate has a non-empty `_id`, leads to a
   * deletion, and that of exactly this `_id`.
   */
  function Decide(sel: Selection, candidates: Option<map<int, Doc>>): (a: Action)
    ensures a.Ignore? <==> sel.NotDelete?
    ensures a.Remove? <==>
      && sel.Index? && candidates.Some? && sel.n in candidates.value
      && candidates.value[sel.n].id.Some? && candidates.value[sel.n].id.value != ""
    ensures a.Remove? ==> candidates.value[sel.n].id == Some(a.id)
    ensures sel.Cancel? ==> a == Reset(CanceledText)
    ensures sel.NotANumber? ==> a == Reset(ErrorText)
    ensures sel.Index? && (candidates.None? || sel.n !in candidates.value) ==> a == Reset(UnavailableText)
  {
    match sel
    case NotDelete => Ignore
    case Cancel => Reset(CanceledText)
    case NotANumber => Reset(ErrorText)
    case Index(n) =>
      if candidates.None? || n !in candidates.value then Reset(UnavailableText)
      else
        match candidates.value[n].id
        case None => Reset(NoIdText)
        case Some(id) => if id == "" then Reset(NoIdText) else Remove(id)
  }

  /**
   * A callback's effect on the user's tables: the mode written (`None`: not
   * written), whether the candidate map is removed, and the `_id` deleted;
   * or an exception that escapes the handler.
   */
  datatype Effect = Effect(mode: Option<Mode>, dropCandidates: bool, deleted: Option<string>) | Uncaught

  /** The effect the handler is evidently meant to have, which `CallbackHandler` implements. */
  function IntendedEffect(a: Action): (e: Effect)
    ensures e.Effect?
    ensures a.Ignore? <==> e.mode.None?
    ensures !a.Ignore? ==> e.mode == Some(Normal)
    ensures e.dropCandidates <==> e.deleted.Some?
  {
    match a
    case Ignore => Effect(None, false, None)
    case Reset(_) => Effect(Some(Normal), false, None)
    case Remove(id) => Effect(Some(Normal), true, Some(id))
  }

  /**
   * The effect as written: the call to `delete_entry` names
   * `config.DB_COLLECTION_THOUGHTS`, and the module never imports `config`,
   * so reaching it raises `NameError`, which `except (ValueError, KeyError)`
   * does not catch: nothing is deleted, the mode is not reset and the
   * candidate map stays.
   */
  function AsWrittenEffect(a: Action): (e: Effect)
    ensures a.Remove? <==> e.Uncaught?
    ensures !a.Remove? ==> e == IntendedEffect(a)
  {
    if a.Remove? then Uncaught else IntendedEffect(a)
  }

  /** As written, no selection ever deletes: every one the intended handler deletes raises instead. */
  lemma NoSelectionDeletesAsWritten(sel: Selection, candidates: Option<map<int, Doc>>)
    ensures IntendedEffect(Decide(sel, candidates)).deleted.Some? <==> AsWrittenEffect(Decide(sel, candidates)).Uncaught?
    ensures AsWrittenEffect(Decide(sel, candidates)).Effect? ==> AsWrittenEffect(Decide(sel, candidates)).deleted.None?
  {
  }

  /** Pressing button 1 after a `/delete` that listed one stored thought. */
  lemma FirstButtonRaisesAsWritten()
    ensures var candidates := Some(map[1 := Database.NewDocument("t1", "a thought", EmptyMetadata)]);
      var a := Decide(ParseCallbackData(Commands.NumberButton(1).data), candidates);
      && AsWrittenEffect(a) == Uncaught
      && IntendedEffect(a) == Effect(Some(Normal), true, Some("t1"))
  {
    NumberButtonSelects(1);
  }

  /** `CallbackHandler`, over the shared tables and the store. */
  class CallbackHandler {
    const tables: Tables
    const db: Database.DatabaseService

    ghost predicate Valid()
      reads this, tables, db
    {
      tables.Valid() && db.Valid()
    }

    constructor (tables: Tables, db: Database.DatabaseService)
      requires tables.Valid() && db.Valid()
      ensures Valid()
      ensures this.tables == tables && this.db == db
    {
      this.tables := tables;
      this.db := db;
    }

    /**
     * `handle_callback_query` with the `config` import in place. The mode
     * is never consulted: a selection is honoured in any mode while the
     * user has a candidate map. `reply` is the text the message is edited
     * to, if any.
     */
    method HandleCallbackQuery(userId: int, data: string, fault: bool) returns (reply: Option<string>)
      requires Valid()
      modifies tables, db
      ensures Valid()
      ensures var a := Decide(ParseCallbackData(data), Candidates(old(tables.userThoughts), userId));
        var e := IntendedEffect(a);
        && tables.userState == (if e.mode.Some? then old(tables.userState)[userId := e.mode.value] else old(tables.userState))
        && tables.userThoughts == (if e.dropCandidates then old(tables.userThoughts) - {userId} else old(tables.userThoughts))
        && (a.Ignore? ==> reply == None)
        && (a.Reset? ==> reply == Some(a.reply))
        && (a.Remove? ==>
              && (reply == Some(DeletedText) <==> !fault && a.id in old(db.collections)[Database.Thoughts])
              && (reply == Some(DeletedText) || reply == Some(FailedText)))
      ensures var e := IntendedEffect(Decide(ParseCallbackData(data), Candidates(old(tables.userThoughts), userId)));
        db.collections ==
          if e.deleted.Some? && !fault
          then old(db.collections)[Database.Thoughts := old(db.collections)[Database.Thoughts] - {e.deleted.value}]
          else old(db.collections)
    {
      ghost var candidates := Candidates(tables.userThoughts, userId);
      var selection := ParseCallbackData(data);
      if selection.NotDelete? {
        return None;
      }
      if selection.Cancel? {
        tables.userState := tables.userState[userId := Normal];
        return Some(CanceledText);
      }
      if selection.NotANumber? {
        tables.userState := tables.userState[userId := Normal];
        return Some(ErrorText);
      }
      var thoughtIndex := selection.n;
      if userId !in tables.userThoughts || thoughtIndex !in tables.userThoughts[userId] {
        tables.userState := tables.userState[userId := Normal];
        return Some(UnavailableText);
      }
      var thought := tables.userThoughts[userId][thoughtIndex];
      var thoughtId := thought.id;
      if thoughtId.None? || thoughtId.value == "" {
        tables.userState := tables.userState[userId := Normal];
        return Some(NoIdText);
      }
      assert Decide(selection, candidates) == Remove(thoughtId.value);
      var success := db.DeleteEntry(Database.ThoughtsCollectionName, thoughtId.value, fault);
      if !success && !fault {
        var thoughts := old(db.collections)[Database.Thoughts];
        assert thoughts - {thoughtId.value} == thoughts;
        assert old(db.collections)[Database.Thoughts := thoughts] == old(db.collections);
      }
      if success {
        reply := Some(DeletedText);
      } else {
        reply := Some(FailedText);
      }
      if userId in tables.userThoughts {
        tables.userThoughts := tables.userThoughts - {userId};
      }
      tables.userState := tables.userState[userId := Normal];
    }
  }
}
