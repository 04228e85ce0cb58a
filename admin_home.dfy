/**
 * The admin's home screen: the list of the other accounts, the search
 * over it, the role toggle and how a role change is applied to the list,
 * and the task list sorted by due date and searched by title.
 */
module AdminHome {
  import opened Records
  import opened Seqs
  import opened Text
  import opened Search
  import opened ServerStore
  import opened TaskSort
  import opened ManagerHome

  /** The signed-in admin's own account is not listed. */
  function ExcludeSelf(users: seq<UserInfo>, me: string): (r: seq<UserInfo>)
    ensures forall u :: u in r <==> u in users && u.nickname != me
  {
    Filter(users, (u: UserInfo) => u.nickname != me)
  }

  /** Leaving out the admin keeps the other accounts in their order, and changes nothing if the admin is not listed. */
  lemma {:induction false} ExcludeSelfKeepsOthers(users: seq<UserInfo>, me: string)
    ensures Subsequence(ExcludeSelf(users, me), users)
    ensures (forall i :: 0 <= i < |users| ==> users[i].nickname != me) ==> ExcludeSelf(users, me) == users
  {
    var p := (u: UserInfo) => u.nickname != me;
    FilterIsSubsequence(users, p);
    if forall i :: 0 <= i < |users| ==> users[i].nickname != me {
      FilterKeepsAll(users, p);
    }
  }

  /** The accounts whose lower-cased full name contains the lower-cased query. */
  function SearchUsers(users: seq<UserInfo>, query: string): (r: seq<UserInfo>)
    ensures forall u :: u in r <==> u in users && NameMatches(u, query)
  {
    Filter(users, u => NameMatches(u, query))
  }

  /** The search keeps the list order, an empty query keeps everything, and the query's case does not matter. */
  lemma SearchUsersProperties(users: seq<UserInfo>, query: string)
    ensures Subsequence(SearchUsers(users, query), users)
    ensures SearchUsers(users, "") == users
    ensures SearchUsers(users, Lower(query)) == SearchUsers(users, query)
  {
    FilterIsSubsequence(users, u => NameMatches(u, query));
    forall i | 0 <= i < |users|
      ensures NameMatches(users[i], "")
    {
      EmptyQueryMatches(FullName(users[i]));
    }
    FilterKeepsAll(users, u => NameMatches(u, ""));
    forall u: UserInfo
      ensures NameMatches(u, Lower(query)) == NameMatches(u, query)
    {
      MatchesIgnoresQueryCase(FullName(u), query);
    }
    FilterSame(users, u => NameMatches(u, Lower(query)), u => NameMatches(u, query));
  }

  /**
   * The role offered by a long press: a plain user is made a manager, and
   * every other account (a manager, or an admin) is made a plain user.
   */
  function ToggleRole(role: string): (r: string)
    ensures r == UserRole || r == ManagerRole
    ensures r == ManagerRole <==> role == UserRole
  {
    if role == UserRole then ManagerRole else UserRole
  }

  /** On the two roles the toggle is offered for in practice, it switches between them and back. */
  lemma ToggleRoleInvolution(role: string)
    requires role == UserRole || role == ManagerRole
    ensures ToggleRole(role) != role
    ensures ToggleRole(ToggleRole(role)) == role
  {
  }

  /** The `prevUsers.map(...)` of `updateUserRole`: the account named `nickname` gets the new role. */
  function UpdateRoleInList(users: seq<UserInfo>, nickname: string, role: string): (r: seq<UserInfo>)
    ensures |r| == |users|
    ensures forall i :: 0 <= i < |users| ==> r[i].nickname == users[i].nickname
    ensures forall i :: 0 <= i < |users| && users[i].nickname != nickname ==> r[i] == users[i]
    ensures forall i :: 0 <= i < |users| && users[i].nickname == nickname ==>
      r[i].role == role && r[i].(role := users[i].role) == users[i]
  {
    seq(|users|, i requires 0 <= i < |users| =>
      if users[i].nickname == nickname then users[i].(role := role) else users[i])
  }

  /** Every listed account shows the server's current row for its nickname. */
  ghost predicate Mirrors(list: seq<UserInfo>, users: map<string, User>) {
    forall u :: u in list ==> u.nickname in users && InfoOf(users[u.nickname]) == u
  }

  /** Updating the list as the server updated its table keeps the list a view of the table. */
  lemma {:induction false} UpdateRoleKeepsMirror(list: seq<UserInfo>, users: map<string, User>, nickname: string, role: string)
    requires Mirrors(list, users) && nickname in users
    ensures Mirrors(UpdateRoleInList(list, nickname, role), users[nickname := users[nickname].(role := role)])
  {
    var r := UpdateRoleInList(list, nickname, role);
    var users' := users[nickname := users[nickname].(role := role)];
    forall u | u in r
      ensures u.nickname in users' && InfoOf(users'[u.nickname]) == u
    {
      var i :| 0 <= i < |r| && r[i] == u;
      assert list[i] in list;
    }
  }

  /** `filteredTasks`: the tasks whose title contains the search query, whatever the case. */
  function TitleFilter(tasks: seq<Task>, query: string): (r: seq<Task>)
    ensures forall t :: t in r <==> t in tasks && TitleMatches(t, query)
  {
    Filter(tasks, t => TitleMatches(t, query))
  }

  /** The title filter keeps the order of the task list, and an empty query keeps every task. */
  lemma TitleFilterProperties(tasks: seq<Task>, query: string)
    ensures Subsequence(TitleFilter(tasks, query), tasks)
    ensures TitleFilter(tasks, "") == tasks
  {
    FilterIsSubsequence(tasks, t => TitleMatches(t, query));
    forall i | 0 <= i < |tasks|
      ensures TitleMatches(tasks[i], "")
    {
      EmptyQueryMatches(tasks[i].title);
    }
    FilterKeepsAll(tasks, t => TitleMatches(t, ""));
  }

  /** `loadTasks`: the loaded array is sorted in place by due date. */
  method SortTasksByDueDate(a: array<Task>, parse: string -> int)
    modifies a
    ensures a[..] == SortBy(old(a[..]), DueKey(parse))
    ensures multiset(a[..]) == multiset(old(a[..]))
    ensures forall i, j :: 0 <= i < j < a.Length ==> parse(a[i].dueDate) <= parse(a[j].dueDate)
  {
    SortInPlace(a, DueKey(parse));
    SortByPermutes(old(a[..]), DueKey(parse));
    SortBySorted(old(a[..]), DueKey(parse));
  }

  /** The admin screen's list of accounts, for the signed-in admin `me`. */
  class AdminView {
    const me: string
    var users: seq<UserInfo>

    constructor (me: string)
      ensures this.me == me && users == []
    {
      this.me := me;
      users := [];
    }

    /** `filteredUsers`: the listed accounts that match the search. */
    function FilteredUsers(query: string): (r: seq<UserInfo>)
      reads this
      ensures forall u :: u in r <==> u in users && NameMatches(u, query)
    {
      SearchUsers(users, query)
    }

    /** `fetchUsers`: every account of the server but the admin's own, each once. */
    method FetchUsers(store: Store)
      requires store.Valid()
      modifies this
      ensures Mirrors(users, store.users)
      ensures forall n :: n in store.users && n != me <==> exists u :: u in users && u.nickname == n
      ensures forall i, j :: 0 <= i < j < |users| ==> users[i].nickname != users[j].nickname
    {
      var list := store.ListUsers();
      users := ExcludeSelf(list, me);
      forall n | n in store.users && n != me
        ensures exists u :: u in users && u.nickname == n
      {
        var u := InfoOf(store.users[n]);
        assert u in list;
      }
      ExcludeSelfKeepsOthers(list, me);
      DistinctSubsequence(users, list);
    }

    /**
     * `updateUserRole`: asks the server to change the role, and changes the
     * listed account only when the server reports success.
     */
    method UpdateUserRole(store: Store, nickname: string, newRole: string)
      requires store.Valid()
      modifies this, store
      ensures store.Valid()
      ensures store.tasks == old(store.tasks) && store.nextId == old(store.nextId)
      ensures nickname in old(store.users) ==>
        && store.users == old(store.users)[nickname := old(store.users)[nickname].(role := newRole)]
        && users == UpdateRoleInList(old(users), nickname, newRole)
      ensures nickname !in old(store.users) ==> store.users == old(store.users) && users == old(users)
      ensures old(Mirrors(users, store.users)) ==> Mirrors(users, store.users)
    {
      var r := store.UpdateRole(nickname, newRole);
      if r.Pass? {
        ghost var before := old(store.users);
        if Mirrors(users, before) {
          UpdateRoleKeepsMirror(users, before, nickname, newRole);
        }
        users := UpdateRoleInList(users, nickname, newRole);
      }
    }

    /** `handleLongPress` followed by the first option of the sheet. */
    method HandleLongPress(store: Store, nickname: string, currentRole: string)
      requires store.Valid()
      modifies this, store
      ensures store.Valid()
      ensures store.tasks == old(store.tasks) && store.nextId == old(store.nextId)
      ensures nickname in old(store.users) ==>
        && store.users == old(store.users)[nickname := old(store.users)[nickname].(role := ToggleRole(currentRole))]
        && users == UpdateRoleInList(old(users), nickname, ToggleRole(currentRole))
      ensures nickname !in old(store.users) ==> store.users == old(store.users) && users == old(users)
      ensures old(Mirrors(users, store.users)) ==> Mirrors(users, store.users)
    {
      UpdateUserRole(store, nickname, ToggleRole(currentRole));
    }
  }

  /** A subsequence of a list with distinct nicknames has distinct nicknames. */
  lemma {:induction false} DistinctSubsequence(r: seq<UserInfo>, s: seq<UserInfo>)
    requires Subsequence(r, s)
    requires forall i, j :: 0 <= i < j < |s| ==> s[i].nickname != s[j].nickname
    ensures forall i, j :: 0 <= i < j < |r| ==> r[i].nickname != r[j].nickname
    decreases |s|
  {
    if r != [] && s != [] {
      if r[0] == s[0] {
        DistinctSubsequence(r[1..], s[1..]);
        forall j | 0 < j < |r|
          ensures r[0].nickname != r[j].nickname
        {
          SubsequenceMember(r[1..], s[1..], j - 1);
        }
      } else {
        DistinctSubsequence(r, s[1..]);
      }
    }
  }

  /** Every element of a subsequence is an element of the sequence. */
  lemma {:induction false} SubsequenceMember(r: seq<UserInfo>, s: seq<UserInfo>, i: nat)
    requires Subsequence(r, s) && i < |r|
    ensures r[i] in s
    decreases |s|
  {
    if r[0] == s[0] {
      if i > 0 {
        SubsequenceMember(r[1..], s[1..], i - 1);
      }
    } else {
      SubsequenceMember(r, s[1..], i);
    }
  }
}
