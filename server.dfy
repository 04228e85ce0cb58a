/**
 * The express server: the `users` table keyed by nickname and the `tasks`
 * table keyed by id, held in memory, with one method per route. The routes
 * check nothing beyond existence: no role of the caller, no order of
 * statuses.
 */
module ServerStore {
  import opened Records

  /**
   * bcrypt's `hashSync` and `compareSync`, supplied from outside: the model
   * fixes no hash function and no salt.
   */
  datatype Bcrypt = Bcrypt(hash: string -> string, compare: (string, string) -> bool)

  /** `compareSync` accepts a password against a hash made from that password. */
  ghost predicate Sound(b: Bcrypt) {
    forall x :: b.compare(x, b.hash(x))
  }

  const UserExists: string := "User already exists"
  const UserNotFound: string := "User not found"
  const IncorrectPassword: string := "Incorrect password"
  const TaskNotFound: string := "Task not found"

  class Store {
    /** The `users` table. */
    var users: map<string, User>
    /** The `tasks` table. */
    var tasks: map<nat, Task>
    /** The next value of the `tasks.id` AUTO_INCREMENT counter. */
    var nextId: nat
    const bcrypt: Bcrypt

    /** Rows are stored under their own keys, and every id was issued by the counter. */
    ghost predicate Valid()
      reads this
    {
      && (forall n :: n in users ==> users[n].nickname == n)
      && (forall id :: id in tasks ==> tasks[id].id == id && id < nextId)
    }

    constructor (bcrypt: Bcrypt)
      ensures Valid()
      ensures users == map[] && tasks == map[] && nextId == 1
      ensures this.bcrypt == bcrypt
    {
      users := map[];
      tasks := map[];
      nextId := 1;
      this.bcrypt := bcrypt;
    }

    /** `POST /register`: a new account with role `user` and the bcrypt hash of the password. */
    method Register(nickname: string, password: string, firstName: string, lastName: string, patronymic: string)
      returns (r: Outcome)
      requires Valid()
      modifies this
      ensures Valid()
      ensures tasks == old(tasks) && nextId == old(nextId)
      ensures nickname in old(users) ==> r == Fail(UserExists) && users == old(users)
      ensures nickname !in old(users) ==>
        && r == Pass
        && users == old(users)[nickname := User(nickname, bcrypt.hash(password), firstName, lastName, patronymic, UserRole)]
    {
      if nickname in users {
        return Fail(UserExists);
      }
      var hashed := bcrypt.hash(password);
      users := users[nickname := User(nickname, hashed, firstName, lastName, patronymic, UserRole)];
      r := Pass;
    }

    /** `GET /login`: the public fields of the account when the password matches its hash. */
    method Login(nickname: string, password: string) returns (r: Result<UserInfo>)
      ensures nickname !in users ==> r == Failure(UserNotFound)
      ensures nickname in users && !bcrypt.compare(password, users[nickname].password) ==>
        r == Failure(IncorrectPassword)
      ensures nickname in users && bcrypt.compare(password, users[nickname].password) ==>
        r == Success(InfoOf(users[nickname]))
    {
      if nickname !in users {
        return Failure(UserNotFound);
      }
      var user := users[nickname];
      if bcrypt.compare(password, user.password) {
        r := Success(InfoOf(user));
      } else {
        r := Failure(IncorrectPassword);
      }
    }

    /** `GET /users`: every account once, without its password hash, in no promised order. */
    method ListUsers() returns (list: seq<UserInfo>)
      requires Valid()
      ensures |list| == |users|
      ensures forall u :: u in list <==> u.nickname in users && u == InfoOf(users[u.nickname])
      ensures forall i, j :: 0 <= i < j < |list| ==> list[i].nickname != list[j].nickname
    {
      list := [];
      var rest := users.Keys;
      while rest != {}
        invariant rest <= users.Keys
        invariant |list| + |rest| == |users|
        invariant forall u :: u in list <==> u.nickname in users.Keys - rest && u == InfoOf(users[u.nickname])
        invariant forall i, j :: 0 <= i < j < |list| ==> list[i].nickname != list[j].nickname
        decreases |rest|
      {
        var n :| n in rest;
        list := list + [InfoOf(users[n])];
        rest := rest - {n};
      }
    }

    /** `POST /update-role`: any role string, for any account, with no check of who asks. */
    method UpdateRole(nickname: string, role: string) returns (r: Outcome)
      requires Valid()
      modifies this
      ensures Valid()
      ensures tasks == old(tasks) && nextId == old(nextId)
      ensures nickname !in old(users) ==> r == Fail(UserNotFound) && users == old(users)
      ensures nickname in old(users) ==>
        r == Pass && users == old(users)[nickname := old(users)[nickname].(role := role)]
    {
      if nickname !in users {
        return Fail(UserNotFound);
      }
      users := users[nickname := users[nickname].(role := role)];
      r := Pass;
    }

    /** `DELETE /delete-user`: the account goes; tasks naming it keep their copied names. */
    method DeleteUser(nickname: string) returns (r: Outcome)
      requires Valid()
      modifies this
      ensures Valid()
      ensures tasks == old(tasks) && nextId == old(nextId)
      ensures nickname !in old(users) ==> r == Fail(UserNotFound) && users == old(users)
      ensures nickname in old(users) ==> r == Pass && users == old(users) - {nickname}
    {
      if nickname !in users {
        return Fail(UserNotFound);
      }
      users := users - {nickname};
      r := Pass;
    }

    /**
     * `POST /create-task`: the body is stored as sent, status included, under a
     * fresh id; `createdAt` is the database's clock, given here as a parameter.
     */
    method CreateTask(t: NewTask, createdAt: string) returns (r: Outcome)
      requires Valid()
      modifies this
      ensures Valid()
      ensures users == old(users)
      ensures r == Pass
      ensures old(nextId) !in old(tasks) && nextId == old(nextId) + 1
      ensures tasks == old(tasks)[old(nextId) := Task(old(nextId), t.title, t.description, t.priority,
        t.createdBy, t.creatorRole, createdAt, t.dueDate, t.status, t.assignedTo)]
    {
      var row := Task(nextId, t.title, t.description, t.priority,
        t.createdBy, t.creatorRole, createdAt, t.dueDate, t.status, t.assignedTo);
      tasks := tasks[nextId := row];
      nextId := nextId + 1;
      r := Pass;
    }

    /** `DELETE /tasks/:id`: no check of who asks. */
    method DeleteTask(id: nat) returns (r: Outcome)
      requires Valid()
      modifies this
      ensures Valid()
      ensures users == old(users) && nextId == old(nextId)
      ensures id !in old(tasks) ==> r == Fail(TaskNotFound) && tasks == old(tasks)
      ensures id in old(tasks) ==> r == Pass && tasks == old(tasks) - {id}
    {
      if id !in tasks {
        return Fail(TaskNotFound);
      }
      tasks := tasks - {id};
      r := Pass;
    }

    /** `GET /tasks/:id` */
    method GetTask(id: nat) returns (r: Result<Task>)
      ensures id !in tasks ==> r == Failure(TaskNotFound)
      ensures id in tasks ==> r == Success(tasks[id])
    {
      if id !in tasks {
        return Failure(TaskNotFound);
      }
      r := Success(tasks[id]);
    }

    /**
     * `PUT /tasks/:id`: the status becomes whatever string was sent, whatever
     * it was before and whoever asks.
     */
    method UpdateStatus(id: nat, status: string) returns (r: Outcome)
      requires Valid()
      modifies this
      ensures Valid()
      ensures users == old(users) && nextId == old(nextId)
      ensures id !in old(tasks) ==> r == Fail(TaskNotFound) && tasks == old(tasks)
      ensures id in old(tasks) ==>
        r == Pass && tasks == old(tasks)[id := old(tasks)[id].(status := status)]
    {
      if id !in tasks {
        return Fail(TaskNotFound);
      }
      tasks := tasks[id := tasks[id].(status := status)];
      r := Pass;
    }

    /** `GET /tasks`: every task once, in no promised order. */
    method ListTasks() returns (list: seq<Task>)
      requires Valid()
      ensures |list| == |tasks|
      ensures forall t :: t in list <==> t.id in tasks && tasks[t.id] == t
      ensures forall i, j :: 0 <= i < j < |list| ==> list[i].id != list[j].id
    {
      list := [];
      var rest := tasks.Keys;
      while rest != {}
        invariant rest <= tasks.Keys
        invariant |list| + |rest| == |tasks|
        invariant forall t :: t in list <==> t.id in tasks.Keys - rest && tasks[t.id] == t
        invariant forall i, j :: 0 <= i < j < |list| ==> list[i].id != list[j].id
        decreases |rest|
      {
        var id :| id in rest;
        list := list + [tasks[id]];
        rest := rest - {id};
      }
    }
  }

  /**
   * Registering a new nickname and then logging in with the same password
   * succeeds and returns the registered names with role `user`.
   */
  method RegisterThenLogin(store: Store, nickname: string, password: string,
                           firstName: string, lastName: string, patronymic: string)
    returns (registered: Outcome, login: Result<UserInfo>)
    requires store.Valid() && Sound(store.bcrypt)
    requires nickname !in store.users
    modifies store
    ensures store.Valid()
    ensures registered == Pass
    ensures login == Success(UserInfo(nickname, firstName, lastName, patronymic, UserRole))
  {
    registered := store.Register(nickname, password, firstName, lastName, patronymic);
    login := store.Login(nickname, password);
  }

  /** A created task reads back with every field as sent, under the id the counter gave it. */
  method CreateThenGet(store: Store, t: NewTask, createdAt: string) returns (id: nat, fetched: Result<Task>)
    requires store.Valid()
    modifies store
    ensures store.Valid()
    ensures id == old(store.nextId) && id !in old(store.tasks)
    ensures fetched.Success?
    ensures var row := fetched.value;
      && row.id == id && row.createdAt == createdAt
      && NewTask(row.title, row.description, row.dueDate, row.priority, row.status,
                 row.createdBy, row.creatorRole, row.assignedTo) == t
  {
    id := store.nextId;
    var _ := store.CreateTask(t, createdAt);
    fetched := store.GetTask(id);
  }

  /** A deleted task is gone: reading it back fails with "Task not found". */
  method DeleteThenGet(store: Store, id: nat) returns (deleted: Outcome, fetched: Result<Task>)
    requires store.Valid()
    modifies store
    ensures store.Valid()
    ensures deleted == (if id in old(store.tasks) then Pass else Fail(TaskNotFound))
    ensures fetched == Failure(TaskNotFound)
  {
    deleted := store.DeleteTask(id);
    fetched := store.GetTask(id);
  }
}
