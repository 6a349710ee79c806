/** What is stated behind a `Look` stays folded until it is asked about. A predicate that says
    `forall at {:trigger Look(tag, at)} | Look(tag, at) :: fact` says no less than its fact, since
    every `Look` holds; but a proof that only passes the predicate on never opens it, and one that
    needs the fact asks for it with `assert Look(tag, 0)`. */
module Folding {
  /** One tag for each fact that is kept folded. */
  datatype Fold =
    | TheCourse | TheHeld | TheSettled | TheTied | TheNoted | TheBank | TheParts | TheLetters | TheColumns | ThePieces
    | TheTurns | TheFours | TheTable | TheGroups | TheWindows | TheCosine | TheBest
    | TheJudge

  ghost predicate Look(fold: Fold, at: nat) {
    true
  }
}
