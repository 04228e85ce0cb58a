/** The home tab: which home screen the signed-in user's role selects. */
module HomeScreen {
  import opened Records
  import opened AdminHome

  datatype Home = Loading | AdminHomeScreen | ManagerHomeScreen | UserHomeScreen

  /** No user yet: the loading view; otherwise a `switch` on the role whose default is the user's home. */
  function HomeFor(user: Option<UserInfo>): (h: Home)
    ensures h == Loading <==> user.None?
    ensures h == AdminHomeScreen <==> user.Some? && user.value.role == AdminRole
    ensures h == ManagerHomeScreen <==> user.Some? && user.value.role == ManagerRole
    ensures h == UserHomeScreen <==> user.Some? && user.value.role != AdminRole && user.value.role != ManagerRole
  {
    match user
    case None => Loading
    case Some(u) =>
      if u.role == AdminRole then AdminHomeScreen
      else if u.role == ManagerRole then ManagerHomeScreen
      else UserHomeScreen
  }

  /**
   * A role set by the admin's toggle never opens the admin's home: it
   * opens the manager's home for a promoted user and the user's home
   * otherwise.
   */
  lemma ToggledRoleHome(u: UserInfo)
    ensures var h := HomeFor(Some(u.(role := ToggleRole(u.role))));
      && h != AdminHomeScreen && h != Loading
      && (h == ManagerHomeScreen <==> u.role == UserRole)
  {
  }
}
