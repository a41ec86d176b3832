/**
 * handlers/__init__.py: the per-user mode table `USER_STATE` and the
 * per-user delete candidates `USER_THOUGHTS`, shared by every handler.
 */
module Session {
  import opened Wrappers
  import opened Documents

  /** The four modes a user can be in. */
  datatype Mode = Normal | Game | Chat | Delete

  /** `STATE_NORMAL`, `STATE_GAME`, `STATE_CHAT`, `STATE_DELETE` */
  function ModeName(m: Mode): string {
    match m
    case Normal => "normal"
    case Game => "game"
    case Chat => "chat"
    case Delete => "delete"
  }

  /** The mode a stored name stands for. */
  function ModeByName(name: string): (m: Option<Mode>)
    ensures m.Some? ==> ModeName(m.value) == name
  {
    if name == "normal" then Some(Normal)
    else if name == "game" then Some(Game)
    else if name == "chat" then Some(Chat)
    else if name == "delete" then Some(Delete)
    else None
  }

  /** The four state names are distinct strings, so comparing names compares modes. */
  lemma ModeNamesDistinct(a: Mode, b: Mode)
    ensures ModeName(a) == ModeName(b) <==> a == b
    ensures ModeByName(ModeName(a)) == Some(a)
  {
    if a != b {
      assert ModeName(a)[0] != ModeName(b)[0] || |ModeName(a)| != |ModeName(b)|;
    }
  }

  /** `/delete` fetches at most one page of ten thoughts. */
  const PageSize := 10

  /** A candidate map's keys are list positions 1..10. */
  predicate CandidateKeys(candidates: map<int, Doc>) {
    forall k | k in candidates :: 1 <= k <= PageSize
  }

  /** `USER_STATE` and `USER_THOUGHTS`. */
  class Tables {
    var userState: map<int, Mode>
    var userThoughts: map<int, map<int, Doc>>

    ghost predicate Valid()
      reads this
    {
      forall u | u in userThoughts :: CandidateKeys(userThoughts[u])
    }

    constructor ()
      ensures Valid()
      ensures userState == map[] && userThoughts == map[]
    {
      userState := map[];
      userThoughts := map[];
    }
  }
}
