/**
 * What one session does with the lines typed at the console, as functions of
 * the state and the input: the reads of the prompts, one pass of each menu's
 * switch, and a whole run of each menu loop. The class ExpenseTracker is
 * proved to follow these definitions.
 *
 * A read past the last line is the Scanner's NoSuchElementException, which no
 * code catches: the process ends at once, which here is the phase Closed with
 * the cursor at the end of the input and nothing saved.
 */
module Session {
  import opened Wrappers
  import opened Text
  import opened Retry
  import opened Ledger
  import opened Storage

  datatype Phase = Unauthenticated | Authenticated | Closed

  /** Credentials are only ever added: every earlier entry keeps its password. */
  ghost predicate Extends(before: map<string, string>, after: map<string, string>) {
    forall u :: u in before ==> u in after && after[u] == before[u]
  }

  lemma ExtendsTransitive(a: map<string, string>, b: map<string, string>, c: map<string, string>)
    requires Extends(a, b) && Extends(b, c)
    ensures Extends(a, c)
  {
  }

  /** The expense list after loadUserExpenses: the stored list, or the current one if there is none. */
  function LoadedOr(files: map<string, Stored>, user: string, current: seq<Expense>): seq<Expense> {
    match ReadExpenses(files, user)
    case Some(items) => items
    case None => current
  }

  /** loginUser's test on the two lines at `from`: the trimmed username is registered with exactly the trimmed password. */
  predicate LoginAccepted(users: map<string, string>, lines: seq<string>, from: nat)
    requires from + 2 <= |lines|
  {
    Trim(lines[from]) in users && users[Trim(lines[from])] == Trim(lines[from + 1])
  }

  /** The table after registerUser has read the username and the password at `from`. */
  function Registered(users: map<string, string>, lines: seq<string>, from: nat): map<string, string>
    requires from + 2 <= |lines|
  {
    users[Trim(lines[from]) := Trim(lines[from + 1])]
  }

  /** What getStringInput reads: the next line trimmed, or None at the end of input. */
  function ReadText(lines: seq<string>, from: nat): (r: Option<(string, nat)>)
    requires from <= |lines|
    ensures r.Some? <==> from < |lines|
    ensures r.Some? ==> r.value.1 == from + 1
  {
    if from < |lines| then Some((Trim(lines[from]), from + 1)) else None
  }

  /**
   * What addExpense reads from `lines` starting at `from`: a date (retried
   * until it parses), a category, an amount (retried until it parses to a
   * positive number) and a description; the record and the index of the next
   * unread line, or None when the lines run out first.
   */
  function ReadExpense(lines: seq<string>, from: nat,
                       parseDate: string -> Option<int>, parseAmount: string -> Option<int>)
    : (r: Option<(Expense, nat)>)
    requires from <= |lines|
    ensures r.Some? ==> r.value.0.amount > 0 && from + 4 <= r.value.1 <= |lines|
  {
    match ReadValue(lines, from, parseDate, AnyValue)
    case None => None
    case Some((date, i)) =>
      match ReadText(lines, i)
      case None => None
      case Some((category, j)) =>
        match ReadValue(lines, j, parseAmount, PositiveValue)
        case None => None
        case Some((amount, k)) =>
          match ReadText(lines, k)
          case None => None
          case Some((description, next)) => Some((Expense(date, category, amount, description), next))
  }

  // ---------------------------------------------------------------- login menu

  /** The state the login menu works on. `user` is the logged-in user, if any. */
  datatype LoginState = LoginState(
    phase: Phase, users: map<string, string>, files: map<string, Stored>, user: Option<string>, pos: nat)

  /**
   * One pass of authenticate's switch on `choice`, whose prompt line has been
   * read; `from` is the next unread line. 1 is loginUser, 2 is registerUser
   * (a taken username is refused after one line; a fresh one is inserted and
   * the whole table saved), 3 is System.exit, anything else is ignored.
   */
  function LoginStep(users: map<string, string>, files: map<string, Stored>, lines: seq<string>, from: nat,
                     choice: int): (r: LoginState)
    requires from <= |lines|
    ensures from <= r.pos <= |lines|
    ensures r.phase == Authenticated <==> r.user.Some?
  {
    if choice == 1 then
      if from + 2 <= |lines| then
        if LoginAccepted(users, lines, from) then LoginState(Authenticated, users, files, Some(Trim(lines[from])), from + 2)
        else LoginState(Unauthenticated, users, files, None, from + 2)
      else LoginState(Closed, users, files, None, |lines|)
    else if choice == 2 then
      if from < |lines| && Trim(lines[from]) in users then LoginState(Unauthenticated, users, files, None, from + 1)
      else if from + 2 <= |lines| then
        var table := Registered(users, lines, from);
        LoginState(Unauthenticated, table, WriteUsers(files, table), None, from + 2)
      else LoginState(Closed, users, files, None, |lines|)
    else if choice == 3 then LoginState(Closed, users, files, None, from)
    else LoginState(Unauthenticated, users, files, None, from)
  }

  /**
   * authenticate from line `from` on: read a choice (retrying until it parses),
   * take one pass, and go round again until someone is logged in or the
   * session has ended.
   */
  function LoginMenuRun(users: map<string, string>, files: map<string, Stored>, lines: seq<string>, from: nat,
                        parseInt: string -> Option<int>): (r: LoginState)
    requires from <= |lines|
    ensures from <= r.pos <= |lines|
    ensures r.phase == Authenticated || r.phase == Closed
    ensures r.phase == Authenticated <==> r.user.Some?
    decreases |lines| - from
  {
    match ReadValue(lines, from, parseInt, AnyValue)
    case None => LoginState(Closed, users, files, None, |lines|)
    case Some((choice, next)) =>
      var s := LoginStep(users, files, lines, next, choice);
      if s.phase == Unauthenticated then LoginMenuRun(s.users, s.files, lines, s.pos, parseInt) else s
  }

  /**
   * One pass keeps every credential, and the table changes only by a
   * registration, which saves it at once. The session ends only on choice 3
   * or at the end of input, and a login binds a registered user.
   */
  lemma LoginStepKeeps(users: map<string, string>, files: map<string, Stored>, lines: seq<string>, from: nat,
                       choice: int)
    requires from <= |lines|
    ensures var r := LoginStep(users, files, lines, from, choice);
      && Extends(users, r.users)
      && ((r.files == files && r.users == users) || (choice == 2 && r.files == WriteUsers(files, r.users)))
      && (r.phase == Closed ==> choice == 3 || r.pos == |lines|)
      && (r.phase == Authenticated ==> choice == 1 && r.user.value in r.users)
  {
  }

  /**
   * A whole run of the login menu keeps every credential; the table on disk
   * is either untouched with the table unchanged or holds the final table. A
   * run closes only at the end of input or right after a line reading 3, and
   * ends logged in only as a registered user.
   */
  lemma {:induction false} LoginMenuRunKeeps(users: map<string, string>, files: map<string, Stored>,
                                             lines: seq<string>, from: nat, parseInt: string -> Option<int>)
    requires from <= |lines|
    ensures var r := LoginMenuRun(users, files, lines, from, parseInt);
      && Extends(users, r.users)
      && ((r.files == files && r.users == users) || r.files == WriteUsers(files, r.users))
      && (r.phase == Closed ==> r.user.None? && (r.pos == |lines| || (0 < r.pos && parseInt(lines[r.pos - 1]) == Some(3))))
      && (r.phase == Authenticated ==> r.user.Some? && r.user.value in r.users)
    decreases |lines| - from
  {
    match ReadValue(lines, from, parseInt, AnyValue)
    case None =>
    case Some((choice, next)) =>
      ReadValueLast(lines, from, parseInt, AnyValue);
      var s := LoginStep(users, files, lines, next, choice);
      LoginStepKeeps(users, files, lines, next, choice);
      if s.phase == Unauthenticated {
        LoginMenuRunKeeps(s.users, s.files, lines, s.pos, parseInt);
        var r := LoginMenuRun(s.users, s.files, lines, s.pos, parseInt);
        ExtendsTransitive(users, s.users, r.users);
        if s.files != files || s.users != users {
          WriteUsersTwice(files, s.users, r.users);
        }
      }
  }

  // ---------------------------------------------------------------- main menu

  /** The state the main menu works on. */
  datatype MainState = MainState(phase: Phase, expenses: seq<Expense>, files: map<string, Stored>, pos: nat)

  /**
   * One pass of run's switch on `choice` for `user`; `from` is the next unread
   * line. 1 is addExpense, 2 is viewAllExpenses (which sorts a non-empty list
   * in place), 3 is showCategoryTotals (which changes nothing), 4 saves and
   * ends the session, anything else is ignored.
   */
  function MainStep(expenses: seq<Expense>, files: map<string, Stored>, user: string, lines: seq<string>,
                    from: nat, choice: int, parseDate: string -> Option<int>, parseAmount: string -> Option<int>)
    : (r: MainState)
    requires from <= |lines|
    ensures from <= r.pos <= |lines|
    ensures r.phase == Authenticated || r.phase == Closed
  {
    if choice == 1 then
      match ReadExpense(lines, from, parseDate, parseAmount)
      case None => MainState(Closed, expenses, files, |lines|)
      case Some((e, next)) => MainState(Authenticated, expenses + [e], files, next)
    else if choice == 2 then
      MainState(Authenticated, if expenses == [] then expenses else SortByDateDesc(expenses), files, from)
    else if choice == 4 then MainState(Closed, expenses, WriteExpenses(files, user, expenses), from)
    else MainState(Authenticated, expenses, files, from)
  }

  /**
   * run from line `from` on: read a choice (retrying until it parses), take
   * one pass, and go round again until the session has ended.
   */
  function MainMenuRun(expenses: seq<Expense>, files: map<string, Stored>, user: string, lines: seq<string>,
                       from: nat, parseInt: string -> Option<int>, parseDate: string -> Option<int>,
                       parseAmount: string -> Option<int>): (r: MainState)
    requires from <= |lines|
    ensures from <= r.pos <= |lines|
    ensures r.phase == Closed
    decreases |lines| - from
  {
    match ReadValue(lines, from, parseInt, AnyValue)
    case None => MainState(Closed, expenses, files, |lines|)
    case Some((choice, next)) =>
      var s := MainStep(expenses, files, user, lines, next, choice, parseDate, parseAmount);
      if s.phase == Closed then s
      else MainMenuRun(s.expenses, s.files, user, lines, s.pos, parseInt, parseDate, parseAmount)
  }

  /**
   * One pass loses no record and keeps every amount positive; only choice 4
   * touches the files, and it saves the list as it stands. The session ends
   * only on choice 4 or at the end of input.
   */
  lemma MainStepKeeps(expenses: seq<Expense>, files: map<string, Stored>, user: string, lines: seq<string>,
                      from: nat, choice: int, parseDate: string -> Option<int>, parseAmount: string -> Option<int>)
    requires from <= |lines|
    ensures var r := MainStep(expenses, files, user, lines, from, choice, parseDate, parseAmount);
      && multiset(expenses) <= multiset(r.expenses)
      && (AllPositive(expenses) ==> AllPositive(r.expenses))
      && (if choice == 4 then r.files == WriteExpenses(files, user, r.expenses) else r.files == files)
      && (r.phase == Closed ==> choice == 4 || r.pos == |lines|)
  {
    if choice == 1 {
      match ReadExpense(lines, from, parseDate, parseAmount)
      case None =>
      case Some((e, next)) =>
        if AllPositive(expenses) {
          AppendPositive(expenses, e);
        }
    } else if choice == 2 && expenses != [] {
      SortByDateDescCorrect(expenses);
      if AllPositive(expenses) {
        SortByDateDescKeepsPositive(expenses);
      }
    }
  }

  /**
   * A whole run of the main menu loses no record and keeps every amount
   * positive. Either the final list has been saved to the user's file (choice
   * 4), or the input ran out with the files untouched.
   */
  lemma {:induction false} MainMenuRunKeeps(expenses: seq<Expense>, files: map<string, Stored>, user: string,
                                            lines: seq<string>, from: nat, parseInt: string -> Option<int>,
                                            parseDate: string -> Option<int>, parseAmount: string -> Option<int>)
    requires from <= |lines|
    ensures var r := MainMenuRun(expenses, files, user, lines, from, parseInt, parseDate, parseAmount);
      && multiset(expenses) <= multiset(r.expenses)
      && (AllPositive(expenses) ==> AllPositive(r.expenses))
      && (r.files == WriteExpenses(files, user, r.expenses) || (r.pos == |lines| && r.files == files))
    decreases |lines| - from
  {
    match ReadValue(lines, from, parseInt, AnyValue)
    case None =>
    case Some((choice, next)) =>
      var s := MainStep(expenses, files, user, lines, next, choice, parseDate, parseAmount);
      MainStepKeeps(expenses, files, user, lines, next, choice, parseDate, parseAmount);
      if s.phase != Closed {
        MainMenuRunKeeps(s.expenses, s.files, user, lines, s.pos, parseInt, parseDate, parseAmount);
      }
  }

  /** Choosing 4 at once saves the list as it stands and reads nothing more. */
  lemma ExitSavesAtOnce(expenses: seq<Expense>, files: map<string, Stored>, user: string,
                        parseInt: string -> Option<int>, parseDate: string -> Option<int>,
                        parseAmount: string -> Option<int>)
    requires parseInt("4") == Some(4)
    ensures MainMenuRun(expenses, files, user, ["4"], 0, parseInt, parseDate, parseAmount)
         == MainState(Closed, expenses, WriteExpenses(files, user, expenses), 1)
  {
    assert FirstAccepted(["4"], 0, parseInt, AnyValue) == 0;
  }

  /**
   * Adding one expense and then exiting saves the list with that record
   * appended, and the user's file then reads back as that list (what the
   * next login loads).
   */
  lemma AddThenExitSaves(expenses: seq<Expense>, files: map<string, Stored>, user: string,
                         date: string, category: string, amount: string, description: string,
                         parseInt: string -> Option<int>, parseDate: string -> Option<int>,
                         parseAmount: string -> Option<int>)
    requires parseInt("1") == Some(1) && parseInt("4") == Some(4)
    requires parseDate(date).Some? && parseAmount(amount).Some? && parseAmount(amount).value > 0
    ensures var saved := expenses + [Expense(parseDate(date).value, Trim(category), parseAmount(amount).value, Trim(description))];
      var r := MainMenuRun(expenses, files, user, ["1", date, category, amount, description, "4"], 0,
                           parseInt, parseDate, parseAmount);
      && r == MainState(Closed, saved, WriteExpenses(files, user, saved), 6)
      && ReadExpenses(r.files, user) == Some(saved)
  {
    var lines := ["1", date, category, amount, description, "4"];
    var saved := expenses + [Expense(parseDate(date).value, Trim(category), parseAmount(amount).value, Trim(description))];
    assert FirstAccepted(lines, 0, parseInt, AnyValue) == 0;
    assert FirstAccepted(lines, 1, parseDate, AnyValue) == 1;
    assert FirstAccepted(lines, 3, parseAmount, PositiveValue) == 3;
    assert FirstAccepted(lines, 5, parseInt, AnyValue) == 5;
    assert MainStep(expenses, files, user, lines, 1, 1, parseDate, parseAmount)
        == MainState(Authenticated, saved, files, 5);
    WriteThenReadExpenses(files, user, saved, user);
  }

  /** A matching pair after choice 1 ends the login menu logged in, with nothing changed. */
  lemma LoginAtOnce(users: map<string, string>, files: map<string, Stored>, user: string, password: string,
                    parseInt: string -> Option<int>)
    requires parseInt("1") == Some(1)
    requires Trim(user) in users && users[Trim(user)] == Trim(password)
    ensures LoginMenuRun(users, files, ["1", user, password], 0, parseInt)
         == LoginState(Authenticated, users, files, Some(Trim(user)), 3)
  {
    assert FirstAccepted(["1", user, password], 0, parseInt, AnyValue) == 0;
  }
}
