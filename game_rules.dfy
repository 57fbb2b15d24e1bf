/** The difficulty to time-limit table and its lookup. */
module GameRules {
  import opened Wrappers
  import opened Text

  const Easy: int := 15
  const Medium: int := 20
  const Hard: int := 25
  const Default: int := 30

  /** `TIME_LIMITS[key]`: the table has the keys EASY, MEDIUM, HARD and DEFAULT. */
  function TableEntry(key: string): Option<int> {
    if key == "EASY" then Some(Easy)
    else if key == "MEDIUM" then Some(Medium)
    else if key == "HARD" then Some(Hard)
    else if key == "DEFAULT" then Some(Default)
    else None
  }

  /**
   * `getQuestionTimeLimit`: a missing or empty difficulty gives the default, otherwise the
   * upper-cased name is looked up and anything not in the table gives the default.
   */
  function QuestionTimeLimit(difficulty: Option<string>): (r: int)
    ensures r in {Easy, Medium, Hard, Default}
    ensures r == Easy <==> difficulty.Some? && Upper(difficulty.value) == "EASY"
    ensures r == Medium <==> difficulty.Some? && Upper(difficulty.value) == "MEDIUM"
    ensures r == Hard <==> difficulty.Some? && Upper(difficulty.value) == "HARD"
  {
    if difficulty.None? || difficulty.value == "" then Default
    else TableEntry(Upper(difficulty.value)).GetOr(Default)
  }

  /** The lookup ignores case: a name and its upper-cased form get the same limit. */
  lemma CaseInsensitive(name: string)
    ensures QuestionTimeLimit(Some(name)) == QuestionTimeLimit(Some(Upper(name)))
  {
    UpperIdempotent(name);
  }

  /** No difficulty, an empty one, or any name outside the three gives 30 seconds. */
  lemma DefaultLimit(difficulty: Option<string>)
    requires difficulty.None? || Upper(difficulty.value) !in {"EASY", "MEDIUM", "HARD"}
    ensures QuestionTimeLimit(difficulty) == 30
  {
  }
}
