/**
 * The records the server stores and the screens exchange with it, and the
 * shapes of its replies.
 */
module Records {

  datatype Option<T> = None | Some(value: T)

  /** A reply without a payload: `{ success: true, ... }` or `{ error: message }`. */
  datatype Outcome = Pass | Fail(error: string)

  /** A reply with a payload, or `{ error: message }`. */
  datatype Result<T> = Success(value: T) | Failure(error: string)

  /** The three task statuses, as the screens write them: to-do, in progress, done. */
  const ToDo: string := "к выполнению"
  const InProgress: string := "выполняется"
  const Done: string := "готово"

  /** The role strings the application uses. */
  const UserRole: string := "user"
  const ManagerRole: string := "manager"
  const AdminRole: string := "admin"

  /** A row of the `users` table; `password` holds the server-side bcrypt hash. */
  datatype User = User(
    nickname: string,
    password: string,
    firstName: string,
    lastName: string,
    patronymic: string,
    role: string)

  /**
   * The public fields of a user: a row of `GET /users`, the payload of a
   * successful login, and the signed-in user the client keeps.
   */
  datatype UserInfo = UserInfo(
    nickname: string,
    firstName: string,
    lastName: string,
    patronymic: string,
    role: string)

  /** The row without its password hash. */
  function InfoOf(u: User): (info: UserInfo)
    ensures info.nickname == u.nickname && info.role == u.role
  {
    UserInfo(u.nickname, u.firstName, u.lastName, u.patronymic, u.role)
  }

  /** The body of `POST /create-task`. */
  datatype NewTask = NewTask(
    title: string,
    description: string,
    dueDate: string,
    priority: string,
    status: string,
    createdBy: string,
    creatorRole: string,
    assignedTo: string)

  /**
   * A row of the `tasks` table: the fields of a `NewTask` plus the `id` and
   * `createdAt` the database assigns. Timestamps stay strings, as the JSON
   * carries them.
   */
  datatype Task = Task(
    id: nat,
    title: string,
    description: string,
    priority: string,
    createdBy: string,
    creatorRole: string,
    createdAt: string,
    dueDate: string,
    status: string,
    assignedTo: string)
}
