/** The SQLite query: the same SQL translation, but a search whose operator
    compares equal to 'match' or 'not match' is refused before the parent's
    search runs, since SQLite has no REGEXP operator by default. */
module SqliteQuery {
  import opened Values

  /** The check made before delegating to the parent's search. Only a call
      with exactly three arguments is looked at, and the operator is compared
      loosely and without lower-casing it first. */
  function MatchGuard(args: seq<Value>): (r: Outcome)
    ensures r.Fail? ==> r.error == MatchDisabled && |args| == 3
  {
    if |args| == 3 && (LooseEqualsWord(args[1], "match") || LooseEqualsWord(args[1], "not match"))
    then Fail(MatchDisabled)
    else Pass
  }

  /** For a string operator the guard refuses exactly the two lower-case
      spellings; 'MATCH' or 'Not Match' get through. */
  lemma GuardOnStrings(field: Value, op: string, value: Value)
    ensures MatchGuard([field, Str(op), value]).Fail? <==> op == "match" || op == "not match"
  {
  }

  /** The loose comparison also refuses the operator `true`, which equals any
      non-empty string. */
  lemma GuardOnTrue(field: Value, value: Value)
    ensures MatchGuard([field, Bool(true), value]) == Fail(MatchDisabled)
  {
  }
}
