/**
 * The registration screen: the checks made before anything is sent, the
 * body of `POST /register` with the password replaced by its SHA-256
 * digest, and the move to the login screen on success.
 *
 * SHA-256 is the parameter `sha`: the model fixes no digest function.
 */
module Registration {
  import opened Records
  import opened ServerStore

  datatype RegisterForm = RegisterForm(
    nickname: string,
    password: string,
    confirmPassword: string,
    firstName: string,
    lastName: string,
    patronymic: string)

  /** The JSON body of `POST /register`. */
  datatype RegisterBody = RegisterBody(
    nickname: string,
    password: string,
    firstName: string,
    lastName: string,
    patronymic: string,
    role: string)

  const FillAllFields: string := "Заполните все поля"
  const PasswordsDiffer: string := "Пароли не совпадают"

  predicate HasEmptyField(f: RegisterForm) {
    f.nickname == "" || f.password == "" || f.confirmPassword == ""
    || f.firstName == "" || f.lastName == "" || f.patronymic == ""
  }

  /**
   * `handleRegister` up to the request: an empty field, then a confirmation
   * that differs from the password, stop it; otherwise the body carries the
   * digest of the password and the role `user`.
   */
  function HandleRegister(f: RegisterForm, sha: string -> string): (r: Result<RegisterBody>)
    ensures r == Failure(FillAllFields) <==> HasEmptyField(f)
    ensures r == Failure(PasswordsDiffer) <==> !HasEmptyField(f) && f.password != f.confirmPassword
    ensures r.Success? <==> !HasEmptyField(f) && f.password == f.confirmPassword
    ensures r.Success? ==>
      && r.value.password == sha(f.password)
      && r.value.role == UserRole
      && r.value.nickname == f.nickname
      && r.value.firstName == f.firstName && r.value.lastName == f.lastName
      && r.value.patronymic == f.patronymic
  {
    if HasEmptyField(f) then Failure(FillAllFields)
    else if f.password != f.confirmPassword then Failure(PasswordsDiffer)
    else Success(RegisterBody(f.nickname, sha(f.password), f.firstName, f.lastName, f.patronymic, UserRole))
  }

  /**
   * Pressing "register": nothing is sent for an invalid form; otherwise the
   * server registers the account (ignoring the body's `role`), and the
   * screen moves to login exactly when the reply carries no error.
   */
  method SubmitRegistration(store: Store, f: RegisterForm, sha: string -> string)
    returns (navigate: bool)
    requires store.Valid()
    modifies store
    ensures store.Valid()
    ensures store.tasks == old(store.tasks) && store.nextId == old(store.nextId)
    ensures navigate <==> HandleRegister(f, sha).Success? && f.nickname !in old(store.users)
    ensures navigate ==> store.users == old(store.users)[f.nickname :=
      User(f.nickname, store.bcrypt.hash(sha(f.password)), f.firstName, f.lastName, f.patronymic, UserRole)]
    ensures !navigate ==> store.users == old(store.users)
  {
    var request := HandleRegister(f, sha);
    if request.Failure? {
      return false;
    }
    var body := request.value;
    var reply := store.Register(body.nickname, body.password, body.firstName, body.lastName, body.patronymic);
    navigate := reply.Pass?;
  }
}
