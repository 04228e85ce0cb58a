/**
 * The create-task form: the check that every field is filled, the rewrite
 * of the typed due date and time into the timestamp sent to the server,
 * the short names of the creator and the assignee, the priority table,
 * the assignee search, and the reset of the form after success.
 */
module CreateTask {
  import opened Records
  import opened Seqs
  import opened Text
  import opened Search
  import opened ServerStore

  /** The state of the form. */
  datatype Form = Form(
    title: string,
    description: string,
    dueDate: string,
    dueTime: string,
    priority: string,
    searchQuery: string,
    selectedUser: Option<UserInfo>)

  const LowLabel: string := "Низкий"
  const MediumLabel: string := "Средний"
  const HighLabel: string := "Высокий"
  const FillAllFields: string := "Пожалуйста, заполните все поля"

  /** The form as the screen opens it, and as a successful create leaves it. */
  const InitialForm: Form := Form("", "", "", "", LowLabel, "", None)

  /** The three labels of the priority buttons. */
  predicate IsPriorityLabel(caption: string) {
    caption == LowLabel || caption == MediumLabel || caption == HighLabel
  }

  /** `priorityMapping`: the English priority for a button caption. */
  function PriorityMapping(caption: string): (r: Option<string>)
    ensures r.Some? <==> IsPriorityLabel(caption)
    ensures r == Some("Low") <==> caption == LowLabel
    ensures r == Some("Medium") <==> caption == MediumLabel
    ensures r == Some("High") <==> caption == HighLabel
  {
    if caption == LowLabel then Some("Low")
    else if caption == MediumLabel then Some("Medium")
    else if caption == HighLabel then Some("High")
    else None
  }

  /** `s.charAt(0)`: the first character, or the empty string. */
  function Initial(s: string): (r: string)
    ensures |r| <= 1 && StartsWith(s, r)
    ensures r == [] <==> s == []
  {
    if s == [] then "" else [s[0]]
  }

  /** `${last} ${first.charAt(0)}.${patronymic.charAt(0)}.`, as in "Иванов И.И." */
  function DisplayName(u: UserInfo): (name: string)
    ensures StartsWith(name, u.lastName + " ")
    ensures |name| == |u.lastName| + 3 + |Initial(u.firstName)| + |Initial(u.patronymic)|
    ensures name[|name| - 1] == '.'
  {
    u.lastName + " " + Initial(u.firstName) + "." + Initial(u.patronymic) + "."
  }

  /** A last name without spaces is the first space-separated word of the short name. */
  lemma {:induction false} DisplayNameLastName(u: UserInfo)
    requires ' ' !in u.lastName
    ensures Split(DisplayName(u), ' ')[0] == u.lastName
  {
    var rest := Initial(u.firstName) + "." + Initial(u.patronymic) + ".";
    assert DisplayName(u) == u.lastName + [' '] + rest;
    SplitCons(u.lastName, ' ', rest);
  }

  /** `${dueDate.split('.').reverse().join('-')}T${dueTime}:00` */
  function FormatDueDate(date: string, time: string): string {
    Join(Reverse(Split(date, '.')), '-') + "T" + time + ":00"
  }

  /** Day, month and year without dots become year, month and day joined by dashes. */
  lemma FormatDueDateParts(dd: string, mm: string, yyyy: string, time: string)
    requires '.' !in dd && '.' !in mm && '.' !in yyyy
    ensures FormatDueDate(dd + "." + mm + "." + yyyy, time) == yyyy + "-" + mm + "-" + dd + "T" + time + ":00"
  {
    SplitThree(dd, mm, yyyy, '.');
    assert Reverse([dd, mm, yyyy]) == [yyyy, mm, dd];
    JoinThree(yyyy, mm, dd, '-');
  }

  lemma SplitThree(a: string, b: string, c: string, sep: char)
    requires sep !in a && sep !in b && sep !in c
    ensures Split(a + [sep] + b + [sep] + c, sep) == [a, b, c]
  {
    assert a + [sep] + b + [sep] + c == a + [sep] + (b + [sep] + c);
    SplitCons(a, sep, b + [sep] + c);
    SplitCons(b, sep, c);
  }

  lemma JoinThree(a: string, b: string, c: string, sep: char)
    ensures Join([a, b, c], sep) == a + [sep] + b + [sep] + c
  {
    assert [a, b, c][1..] == [b, c] && [b, c][1..] == [c];
    assert Join([b, c], sep) == b + [sep] + c;
    assert Join([a, b, c], sep) == a + [sep] + (b + [sep] + c);
  }

  predicate IsDigit(c: char) {
    '0' <= c <= '9'
  }

  /** A date typed to the end of the mask `99.99.9999`. */
  predicate MaskedDate(s: string) {
    |s| == 10 && s[2] == '.' && s[5] == '.'
    && forall k :: 0 <= k < 10 && k != 2 && k != 5 ==> IsDigit(s[k])
  }

  /** A time typed to the end of the mask `99:99`. */
  predicate MaskedTime(s: string) {
    |s| == 5 && s[2] == ':' && IsDigit(s[0]) && IsDigit(s[1]) && IsDigit(s[3]) && IsDigit(s[4])
  }

  /** A fully typed `dd.mm.yyyy` and `hh:mm` are sent as `yyyy-mm-ddThh:mm:00`. */
  lemma FormatMaskedDueDate(date: string, time: string)
    requires MaskedDate(date) && MaskedTime(time)
    ensures var r := FormatDueDate(date, time);
      && |r| == 19
      && r == date[6..10] + "-" + date[3..5] + "-" + date[..2] + "T" + time[..2] + ":" + time[3..] + ":00"
  {
    var dd, mm, yyyy := date[..2], date[3..5], date[6..10];
    assert date == dd + "." + mm + "." + yyyy;
    assert '.' !in dd && '.' !in mm by {
      assert IsDigit(date[0]) && IsDigit(date[1]) && IsDigit(date[3]) && IsDigit(date[4]);
    }
    assert '.' !in yyyy by {
      assert IsDigit(date[6]) && IsDigit(date[7]) && IsDigit(date[8]) && IsDigit(date[9]);
    }
    FormatDueDateParts(dd, mm, yyyy, time);
    assert time == time[..2] + ":" + time[3..];
  }

  /**
   * `handleCreateTask` up to the request: an empty field or no chosen
   * assignee stops it with an alert; otherwise it builds the body of
   * `POST /create-task`.
   */
  function HandleCreateTask(form: Form, me: UserInfo): (r: Result<NewTask>)
    requires IsPriorityLabel(form.priority)
    ensures r.Failure? <==>
      form.title == "" || form.description == "" || form.dueDate == "" || form.dueTime == ""
      || form.selectedUser.None?
    ensures r.Failure? ==> r.error == FillAllFields
    ensures r.Success? ==>
      && r.value.title == form.title && r.value.description == form.description
      && r.value.dueDate == FormatDueDate(form.dueDate, form.dueTime)
      && Some(r.value.priority) == PriorityMapping(form.priority)
      && r.value.status == ToDo
      && r.value.createdBy == DisplayName(me) && r.value.creatorRole == me.role
      && r.value.assignedTo == DisplayName(form.selectedUser.value)
  {
    if form.title == "" || form.description == "" || form.dueDate == "" || form.dueTime == ""
       || form.selectedUser.None?
    then Failure(FillAllFields)
    else
      Success(NewTask(
        form.title,
        form.description,
        FormatDueDate(form.dueDate, form.dueTime),
        PriorityMapping(form.priority).value,
        ToDo,
        DisplayName(me),
        me.role,
        DisplayName(form.selectedUser.value)))
  }

  /** After a successful create every field is back to its initial value; otherwise the form stays. */
  function AfterCreate(form: Form, r: Outcome): (f: Form)
    ensures r.Pass? ==> f == InitialForm
    ensures r.Fail? ==> f == form
  {
    if r.Pass? then InitialForm else form
  }

  /** A reset form cannot be sent again as it is, and its priority is Low. */
  lemma ResetFormRejected(me: UserInfo)
    ensures HandleCreateTask(InitialForm, me) == Failure(FillAllFields)
    ensures PriorityMapping(InitialForm.priority) == Some("Low")
  {
  }

  /** `handleUserSelect`: the chosen assignee, whose short name replaces the query. */
  function SelectUser(form: Form, u: UserInfo): (f: Form)
    ensures f.selectedUser == Some(u) && f.searchQuery == DisplayName(u)
    ensures f.(selectedUser := form.selectedUser, searchQuery := form.searchQuery) == form
  {
    form.(selectedUser := Some(u), searchQuery := DisplayName(u))
  }

  predicate IsPlainUser(u: UserInfo) {
    u.role == UserRole
  }

  /**
   * `fetchFilteredUsers`: nothing for a blank query; otherwise the accounts
   * with role `user` whose full name matches the query.
   */
  function AssigneeSearch(users: seq<UserInfo>, query: string): (r: seq<UserInfo>)
    ensures |Trim(query)| == 0 ==> r == []
    ensures forall u :: u in r <==> |Trim(query)| > 0 && u in users && IsPlainUser(u) && NameMatches(u, query)
  {
    if |Trim(query)| == 0 then []
    else Filter(Filter(users, IsPlainUser), u => NameMatches(u, query))
  }

  /**
   * A query of white space only finds nobody; any other query finds the
   * matching plain users in the order the server listed them.
   */
  lemma AssigneeSearchProperties(users: seq<UserInfo>, query: string)
    ensures (forall k :: 0 <= k < |query| ==> IsSpace(query[k])) ==> AssigneeSearch(users, query) == []
    ensures Subsequence(AssigneeSearch(users, query), users)
  {
    TrimEmptyIffBlank(query);
    if |Trim(query)| > 0 {
      var both := (u: UserInfo) => IsPlainUser(u) && NameMatches(u, query);
      FilterFilter(users, IsPlainUser, u => NameMatches(u, query), both);
      FilterIsSubsequence(users, both);
    }
  }

  /**
   * Pressing "create": a form with a missing field sends nothing; otherwise
   * the server stores the task under a fresh id, and on its success the
   * form is reset.
   */
  method SubmitCreateTask(store: Store, form: Form, me: UserInfo, createdAt: string)
    returns (sent: bool, next: Form)
    requires store.Valid() && IsPriorityLabel(form.priority)
    modifies store
    ensures store.Valid() && store.users == old(store.users)
    ensures sent <==> HandleCreateTask(form, me).Success?
    ensures !sent ==> next == form && store.tasks == old(store.tasks) && store.nextId == old(store.nextId)
    ensures sent ==>
      && next == InitialForm
      && store.nextId == old(store.nextId) + 1
      && old(store.nextId) !in old(store.tasks)
      && var b := HandleCreateTask(form, me).value;
         store.tasks == old(store.tasks)[old(store.nextId) := Task(old(store.nextId), b.title, b.description,
           b.priority, b.createdBy, b.creatorRole, createdAt, b.dueDate, b.status, b.assignedTo)]
    ensures sent ==>
      && old(store.nextId) in store.tasks
      && var row := store.tasks[old(store.nextId)];
         row.title == form.title && row.description == form.description
         && row.dueDate == FormatDueDate(form.dueDate, form.dueTime)
         && Some(row.priority) == PriorityMapping(form.priority)
         && row.status == ToDo && row.createdBy == DisplayName(me) && row.creatorRole == me.role
         && row.createdAt == createdAt && row.assignedTo == DisplayName(form.selectedUser.value)
  {
    var request := HandleCreateTask(form, me);
    if request.Failure? {
      return false, form;
    }
    var r := store.CreateTask(request.value, createdAt);
    sent, next := true, AfterCreate(form, r);
  }
}
