/**
 * The login screen: the check made before anything is sent, the URL of
 * `GET /login` with the SHA-256 digest of the password in its query, and
 * the signed-in user it keeps from the reply.
 */
module Login {
  import opened Records
  import opened Text
  import opened ServerStore
  import opened Registration

  const EnterBoth: string := "Введите имя пользователя и пароль"

  /**
   * `handleLogin` up to the request: an empty nickname or password stops
   * it; otherwise the URL carries both, unescaped, with the password
   * replaced by its digest.
   */
  function LoginUrl(ip: string, nickname: string, password: string, sha: string -> string): (r: Result<string>)
    ensures r.Failure? <==> nickname == "" || password == ""
    ensures r.Failure? ==> r.error == EnterBoth
    ensures r.Success? ==>
      var prefix := ip + "/login?nickname=" + nickname + "&password=";
      StartsWith(r.value, prefix) && r.value[|prefix|..] == sha(password)
  {
    if nickname == "" || password == "" then Failure(EnterBoth)
    else Success(ip + "/login?nickname=" + nickname + "&password=" + sha(password))
  }

  /** The query string of a URL: what follows its first `?`. */
  function QueryOf(url: string): (q: string)
    ensures '?' !in url ==> q == ""
    ensures '?' in url ==>
      var i := |url| - |q| - 1;
      0 <= i && url[i] == '?' && '?' !in url[..i] && q == url[i + 1..]
  {
    if '?' in url then url[IndexOf(url, '?') + 1..] else ""
  }

  /**
   * The characters of a query that express's parser does not read back as
   * typed: `&` separates pairs, `+` becomes a space, `%` starts an escape,
   * and `#` ends the URL before it is sent.
   */
  predicate QuerySafe(s: string) {
    forall c :: c in s ==> c !in "&+#%"
  }

  /** The value of the first `name=value` pair of a query named `name`. */
  function Param(query: string, name: string): (v: Option<string>)
    ensures v.Some? ==> name + "=" + v.value in Split(query, '&')
  {
    FindParam(Split(query, '&'), name)
  }

  function FindParam(pairs: seq<string>, name: string): (v: Option<string>)
    ensures v.Some? ==> name + "=" + v.value in pairs
  {
    if pairs == [] then None
    else if '=' in pairs[0] && pairs[0][..IndexOf(pairs[0], '=')] == name then
      var i := IndexOf(pairs[0], '=');
      assert pairs[0] == pairs[0][..i] + "=" + pairs[0][i + 1..];
      Some(pairs[0][i + 1..])
    else FindParam(pairs[1..], name)
  }

  /** Splits `key=value` at its first `=` when the key has none. */
  lemma PairSplits(key: string, value: string)
    requires '=' !in key
    ensures '=' in key + "=" + value
    ensures var pair := key + "=" + value;
      pair[..IndexOf(pair, '=')] == key && pair[IndexOf(pair, '=') + 1..] == value
  {
    var pair := key + "=" + value;
    assert pair[|key|] == '=';
    IndexOfAfter(key, '=', value);
  }

  /** The query of a login URL is everything after `/login?`. */
  lemma LoginUrlQuery(ip: string, query: string)
    requires '?' !in ip
    ensures QueryOf(ip + "/login?" + query) == query
  {
    var url := ip + "/login?" + query;
    assert url == (ip + "/login") + ['?'] + query;
    assert '?' !in ip + "/login";
    IndexOfAfter(ip + "/login", '?', query);
  }

  /** A query of two pairs with different keys gives each key its value. */
  lemma TwoParams(k1: string, v1: string, k2: string, v2: string)
    requires '=' !in k1 && '=' !in k2 && k1 != k2
    requires '&' !in k1 && '&' !in v1 && '&' !in k2 && '&' !in v2
    ensures var query := k1 + "=" + v1 + "&" + k2 + "=" + v2;
      Param(query, k1) == Some(v1) && Param(query, k2) == Some(v2)
  {
    var first, second := k1 + "=" + v1, k2 + "=" + v2;
    assert '&' !in first && '&' !in second;
    assert k1 + "=" + v1 + "&" + k2 + "=" + v2 == first + ['&'] + second;
    SplitCons(first, '&', second);
    assert Split(second, '&') == [second];
    PairSplits(k1, v1);
    PairSplits(k2, v2);
    assert FindParam([first, second], k1) == Some(v1);
    assert [first, second][1..] == [second];
    assert FindParam([first, second], k2) == FindParam([second], k2);
  }

  /** The login URL is `/login?` followed by the two `key=value` pairs. */
  lemma LoginUrlSplits(ip: string, nickname: string, password: string, sha: string -> string)
    requires nickname != "" && password != ""
    ensures LoginUrl(ip, nickname, password, sha).value
      == ip + "/login?" + ("nickname" + "=" + nickname + "&" + "password" + "=" + sha(password))
  {
    assert "nickname=" == "nickname" + "=" && "&password=" == "&" + "password" + "=";
  }

  /**
   * The server reads back from the query exactly the nickname typed and the
   * digest of the password, as long as neither contains a character the
   * query syntax gives a meaning to.
   */
  lemma LoginQueryRoundTrip(ip: string, nickname: string, password: string, sha: string -> string)
    requires nickname != "" && password != ""
    requires '?' !in ip
    requires QuerySafe(nickname) && QuerySafe(sha(password))
    ensures var url := LoginUrl(ip, nickname, password, sha).value;
      && Param(QueryOf(url), "nickname") == Some(nickname)
      && Param(QueryOf(url), "password") == Some(sha(password))
  {
    var h := sha(password);
    assert '&' !in nickname && '&' !in h;
    LoginUrlSplits(ip, nickname, password, sha);
    LoginUrlQuery(ip, "nickname" + "=" + nickname + "&" + "password" + "=" + h);
    TwoParams("nickname", nickname, "password", h);
  }

  /**
   * What the screen keeps as the signed-in user: nothing changes on an
   * error; on success exactly the five fields of the reply.
   */
  function OnLoginReply(current: Option<UserInfo>, reply: Result<UserInfo>): (user: Option<UserInfo>)
    ensures reply.Failure? ==> user == current
    ensures reply.Success? ==> (user.Some?
      && user.value.nickname == reply.value.nickname && user.value.role == reply.value.role
      && user.value.firstName == reply.value.firstName && user.value.lastName == reply.value.lastName
      && user.value.patronymic == reply.value.patronymic)
  {
    match reply
    case Failure(_) => current
    case Success(info) =>
      Some(UserInfo(info.nickname, info.firstName, info.lastName, info.patronymic, info.role))
  }

  /**
   * Signing up and then signing in with the same password: both screens
   * send the same digest, the server compares it with the bcrypt hash it
   * stored, and the screen keeps the new account with role `user`.
   */
  method SignUpThenSignIn(store: Store, f: RegisterForm, ip: string, sha: string -> string)
    returns (navigated: bool, user: Option<UserInfo>)
    requires store.Valid() && Sound(store.bcrypt)
    requires HandleRegister(f, sha).Success? && f.nickname !in store.users
    requires '?' !in ip && QuerySafe(f.nickname) && QuerySafe(sha(f.password))
    modifies store
    ensures store.Valid()
    ensures navigated
    ensures user == Some(UserInfo(f.nickname, f.firstName, f.lastName, f.patronymic, UserRole))
  {
    navigated := SubmitRegistration(store, f, sha);
    var url := LoginUrl(ip, f.nickname, f.password, sha);
    LoginQueryRoundTrip(ip, f.nickname, f.password, sha);
    var query := QueryOf(url.value);
    var nickname, digest := Param(query, "nickname").value, Param(query, "password").value;
    var reply := store.Login(nickname, digest);
    user := OnLoginReply(None, reply);
  }
}
