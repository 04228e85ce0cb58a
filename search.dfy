/**
 * The case-insensitive searches the screens run over their lists: a task
 * by its title, a user by the full name `"last first patronymic"`.
 */
module Search {
  import opened Records
  import opened Text

  /** `${u.lastName} ${u.firstName} ${u.patronymic}` */
  function FullName(u: UserInfo): (name: string)
    ensures StartsWith(name, u.lastName + " ")
    ensures |name| == |u.lastName| + |u.firstName| + |u.patronymic| + 2
  {
    u.lastName + " " + u.firstName + " " + u.patronymic
  }

  /** `s.toLowerCase().includes(query.toLowerCase())` */
  predicate Matches(s: string, query: string)
    ensures Matches(s, query) ==> |query| <= |s|
  {
    Contains(Lower(s), Lower(query))
  }

  /** The user search of the admin screen and of the assignee field. */
  predicate NameMatches(u: UserInfo, query: string) {
    Matches(FullName(u), query)
  }

  /** The task search of the manager and admin screens. */
  predicate TitleMatches(t: Task, query: string) {
    Matches(t.title, query)
  }

  /** An empty query matches every string. */
  lemma {:induction false} EmptyQueryMatches(s: string)
    ensures Matches(s, "")
  {
    assert Lower("") == "";
    ContainsEmpty(Lower(s));
  }

  /** The search ignores the case of the query: a lower-cased query matches the same strings. */
  lemma MatchesIgnoresQueryCase(s: string, query: string)
    ensures Matches(s, Lower(query)) == Matches(s, query)
  {
    LowerIdempotent(query);
  }
}
