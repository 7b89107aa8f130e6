/**
 * The ExpenseTracker class: the credential table, the logged-in user and the
 * expense list, driven by the lines typed at the console. The session is a
 * small state machine, Unauthenticated -> Authenticated -> Closed: the login
 * menu runs until a login succeeds or the user exits, and the main menu runs
 * until the user exits (which saves) or the input ends.
 *
 * The console is the sequence `input` with the cursor `pos` (the Scanner). A
 * read past the last line is the Scanner's NoSuchElementException, which no
 * code catches: the process ends at once, which here is the move to Closed
 * with nothing saved. The three parsers (Integer.parseInt, Double.parseDouble
 * scaled to cents, SimpleDateFormat.parse as a day stamp) are given to the
 * constructor.
 */
module Tracker {
  import opened Wrappers
  import opened Text
  import opened Retry
  import opened Ledger
  import opened Storage
  import opened Session

  class ExpenseTracker {
    var userCredentials: map<string, string>
    var expenses: seq<Expense>
    var currentUser: Option<string>
    var files: map<string, Stored>
    var phase: Phase
    const input: seq<string>
    var pos: nat
    const parseInt: string -> Option<int>
    const parseAmount: string -> Option<int>
    const parseDate: string -> Option<int>

    ghost predicate Valid()
      reads this
    {
      && pos <= |input|
      && (phase == Unauthenticated ==> currentUser.None?)
      && (phase == Authenticated ==> currentUser.Some? && currentUser.value in userCredentials)
    }

    /** The constructor: empty table and list, then loadUserCredentials. */
    constructor (input: seq<string>, files: map<string, Stored>, parseInt: string -> Option<int>,
                 parseAmount: string -> Option<int>, parseDate: string -> Option<int>)
      ensures Valid()
      ensures this.input == input && this.files == files
      ensures this.parseInt == parseInt && this.parseAmount == parseAmount && this.parseDate == parseDate
      ensures phase == Unauthenticated && pos == 0 && expenses == [] && currentUser == None
      ensures userCredentials == match ReadUsers(files) case Some(users) => users case None => map[]
    {
      this.input := input;
      this.files := files;
      this.parseInt := parseInt;
      this.parseAmount := parseAmount;
      this.parseDate := parseDate;
      userCredentials := map[];
      expenses := [];
      currentUser := None;
      phase := Unauthenticated;
      pos := 0;
      new;
      LoadUserCredentials();
    }

    // ------------------------------------------------------------ input

    /** scanner.nextLine(): the next line, or None at the end of input. */
    method NextLine() returns (line: Option<string>)
      requires Valid()
      modifies this`pos
      ensures Valid()
      ensures old(pos) < |input| ==> line == Some(input[old(pos)]) && pos == old(pos) + 1
      ensures old(pos) == |input| ==> line.None? && pos == old(pos)
    {
      if pos < |input| {
        line := Some(input[pos]);
        pos := pos + 1;
      } else {
        line := None;
      }
    }

    /** getStringInput: the next line, trimmed. */
    method GetStringInput() returns (text: Option<string>)
      requires Valid()
      modifies this`pos
      ensures Valid()
      ensures ReadText(input, old(pos)) == if text.Some? then Some((text.value, pos)) else None
      ensures text.None? ==> pos == |input|
    {
      var line := NextLine();
      text := if line.Some? then Some(Trim(line.value)) else None;
    }

    /** getIntInput: the first line that parses as an integer. */
    method GetIntInput() returns (choice: Option<int>)
      requires Valid()
      modifies this`pos
      ensures Valid()
      ensures ReadValue(input, old(pos), parseInt, AnyValue) == if choice.Some? then Some((choice.value, pos)) else None
      ensures choice.Some? ==> old(pos) < pos && parseInt(input[pos - 1]) == choice
      ensures choice.None? ==> pos == |input|
    {
      choice, pos := ReadUntilAccepted(input, pos, parseInt, AnyValue);
    }

    /** getValidDate: the first line that parses as a date. */
    method GetValidDate() returns (date: Option<int>)
      requires Valid()
      modifies this`pos
      ensures Valid()
      ensures ReadValue(input, old(pos), parseDate, AnyValue) == if date.Some? then Some((date.value, pos)) else None
      ensures date.None? ==> pos == |input|
    {
      date, pos := ReadUntilAccepted(input, pos, parseDate, AnyValue);
    }

    /**
     * getPositiveDouble: the first line that parses as a number greater than
     * zero; every line it skips fails to parse or is at or below zero.
     */
    method GetPositiveDouble() returns (amount: Option<int>)
      requires Valid()
      modifies this`pos
      ensures Valid()
      ensures ReadValue(input, old(pos), parseAmount, PositiveValue) == if amount.Some? then Some((amount.value, pos)) else None
      ensures amount.Some? ==> amount.value > 0 && parseAmount(input[pos - 1]) == amount
      ensures forall j :: old(pos) <= j < pos - 1 ==> parseAmount(input[j]).None? || parseAmount(input[j]).value <= 0
      ensures amount.None? ==> pos == |input|
      ensures amount.None? ==> forall j :: old(pos) <= j < |input| ==> parseAmount(input[j]).None? || parseAmount(input[j]).value <= 0
    {
      amount, pos := ReadUntilAccepted(input, pos, parseAmount, PositiveValue);
    }

    // ------------------------------------------------------------ persistence

    /** loadUserCredentials: replace the table by the stored one when the file holds one. */
    method LoadUserCredentials()
      modifies this`userCredentials
      ensures userCredentials == match ReadUsers(files) case Some(users) => users case None => old(userCredentials)
    {
      var stored := ReadUsers(files);
      if stored.Some? {
        userCredentials := stored.value;
      }
    }

    /** saveUserCredentials: write the whole table. */
    method SaveUserCredentials()
      modifies this`files
      ensures files == WriteUsers(old(files), userCredentials)
      ensures ReadUsers(files) == Some(userCredentials)
    {
      files := WriteUsers(files, userCredentials);
      WriteThenReadUsers(old(files), userCredentials, "");
    }

    /** loadUserExpenses: replace the list by the user's stored one; a missing file keeps the list. */
    method LoadUserExpenses()
      requires currentUser.Some?
      modifies this`expenses
      ensures expenses == LoadedOr(files, currentUser.value, old(expenses))
    {
      var stored := ReadExpenses(files, currentUser.value);
      if stored.Some? {
        expenses := stored.value;
      }
    }

    /** saveUserExpenses: write the whole list to "expenses_" + user + ".dat". */
    method SaveUserExpenses()
      requires currentUser.Some?
      modifies this`files
      ensures files == WriteExpenses(old(files), currentUser.value, expenses)
      ensures ReadExpenses(files, currentUser.value) == Some(expenses)
    {
      files := WriteExpenses(files, currentUser.value, expenses);
      WriteThenReadExpenses(old(files), currentUser.value, expenses, "");
    }

    // ------------------------------------------------------------ credentials

    /**
     * registerUser: read a username; a taken one is refused before the
     * password is read. Otherwise read the password, insert the pair and save
     * the table. Registering does not log in.
     */
    method RegisterUser()
      requires Valid() && phase == Unauthenticated
      modifies this`pos, this`phase, this`userCredentials, this`files
      ensures Valid()
      ensures old(pos) < |input| && Trim(input[old(pos)]) in old(userCredentials) ==>
        && pos == old(pos) + 1 && phase == Unauthenticated
        && userCredentials == old(userCredentials) && files == old(files)
      ensures old(pos) + 1 < |input| && Trim(input[old(pos)]) !in old(userCredentials) ==>
        && pos == old(pos) + 2 && phase == Unauthenticated
        && userCredentials == old(userCredentials)[Trim(input[old(pos)]) := Trim(input[old(pos) + 1])]
        && files == WriteUsers(old(files), userCredentials)
      ensures old(pos) == |input| || (old(pos) + 1 == |input| && Trim(input[old(pos)]) !in old(userCredentials)) ==>
        && pos == |input| && phase == Closed
        && userCredentials == old(userCredentials) && files == old(files)
    {
      var username := GetStringInput();
      if username.None? {
        phase := Closed;
        return;
      }
      if username.value in userCredentials {
        // "Username already exists."
        return;
      }
      var password := GetStringInput();
      if password.None? {
        phase := Closed;
        return;
      }
      userCredentials := userCredentials[username.value := password.value];
      SaveUserCredentials();
    }

    /**
     * loginUser: read a username and a password, both trimmed; succeed iff the
     * username is registered with exactly that password, and then bind the
     * user and load their expenses.
     */
    method LoginUser() returns (ok: bool)
      requires Valid() && phase == Unauthenticated
      modifies this`pos, this`phase, this`currentUser, this`expenses
      ensures Valid()
      ensures old(pos) + 2 <= |input| ==>
        var user, password := Trim(input[old(pos)]), Trim(input[old(pos) + 1]);
        && pos == old(pos) + 2
        && (ok <==> user in userCredentials && userCredentials[user] == password)
        && (ok ==> phase == Authenticated && currentUser == Some(user)
                   && expenses == LoadedOr(files, user, old(expenses)))
        && (!ok ==> phase == Unauthenticated && currentUser == old(currentUser) && expenses == old(expenses))
      ensures old(pos) + 2 > |input| ==>
        !ok && pos == |input| && phase == Closed && currentUser == old(currentUser) && expenses == old(expenses)
    {
      var username := GetStringInput();
      if username.None? {
        phase := Closed;
        return false;
      }
      var password := GetStringInput();
      if password.None? {
        phase := Closed;
        return false;
      }
      if username.value in userCredentials && userCredentials[username.value] == password.value {
        currentUser := Some(username.value);
        phase := Authenticated;
        LoadUserExpenses();
        return true;
      }
      // "Login failed. Try again."
      return false;
    }

    // ------------------------------------------------------------ ledger operations

    /**
     * The reads of addExpense: a date (getValidDate), a category
     * (getStringInput), an amount (getPositiveDouble) and a description
     * (getStringInput), as one record; None when the input ends first.
     */
    method ReadExpenseInput() returns (e: Option<Expense>)
      requires Valid()
      modifies this`pos
      ensures Valid()
      ensures ReadExpense(input, old(pos), parseDate, parseAmount)
           == if e.Some? then Some((e.value, pos)) else None
      ensures e.None? ==> pos == |input|
    {
      var date := GetValidDate();
      if date.None? {
        return None;
      }
      var category := GetStringInput();
      if category.None? {
        return None;
      }
      var amount := GetPositiveDouble();
      if amount.None? {
        return None;
      }
      var description := GetStringInput();
      if description.None? {
        return None;
      }
      e := Some(Expense(date.value, category.value, amount.value, description.value));
    }

    /** addExpense: read one record and append it; the input ending first ends the process. */
    method AddExpense()
      requires Valid() && phase == Authenticated
      modifies this`pos, this`phase, this`expenses
      ensures Valid()
      ensures var r := ReadExpense(input, old(pos), parseDate, parseAmount);
        if r.Some? then phase == Authenticated && pos == r.value.1 && expenses == old(expenses) + [r.value.0]
        else phase == Closed && pos == |input| && expenses == old(expenses)
      ensures phase == Authenticated ==>
        && |expenses| == |old(expenses)| + 1
        && expenses[..|old(expenses)|] == old(expenses)
        && expenses[|old(expenses)|].amount > 0
      ensures multiset(old(expenses)) <= multiset(expenses)
      ensures AllPositive(old(expenses)) ==> AllPositive(expenses)
    {
      var e := ReadExpenseInput();
      if e.None? {
        phase := Closed;
        return;
      }
      if AllPositive(expenses) {
        AppendPositive(expenses, e.value);
      }
      expenses := expenses + [e.value];
      assert expenses[..|old(expenses)|] == old(expenses);
    }

    /**
     * viewAllExpenses: on an empty list nothing happens; otherwise the list
     * itself is sorted, most recent first and stably, and the total of the
     * amounts is shown.
     */
    method ViewAllExpenses() returns (total: Option<int>)
      requires Valid()
      modifies this`expenses
      ensures Valid()
      ensures old(expenses) == [] ==> total.None? && expenses == old(expenses)
      ensures old(expenses) != [] ==> expenses == SortByDateDesc(old(expenses)) && total == Some(Total(old(expenses)))
      ensures SortedByDateDesc(expenses)
      ensures multiset(expenses) == multiset(old(expenses))
      ensures forall d :: WithDate(expenses, d) == WithDate(old(expenses), d)
      ensures AllPositive(old(expenses)) ==> AllPositive(expenses)
    {
      if expenses == [] {
        // "No expenses found."
        return None;
      }
      SortByDateDescCorrect(expenses);
      TotalSortInvariant(expenses);
      if AllPositive(expenses) {
        SortByDateDescKeepsPositive(expenses);
      }
      expenses := SortByDateDesc(expenses);
      total := Some(Total(expenses));
    }

    /**
     * showCategoryTotals: on a non-empty list, the map from each category
     * present to the sum of its amounts, built with one merge per record.
     */
    method ShowCategoryTotals() returns (totals: Option<map<string, int>>)
      ensures expenses == [] ==> totals.None?
      ensures expenses != [] ==> totals.Some? && totals.value.Keys == Categories(expenses)
      ensures totals.Some? ==> forall c :: c in totals.value ==> totals.value[c] == CategorySum(expenses, c)
    {
      if expenses == [] {
        // "No expenses to summarize."
        return None;
      }
      var categoryMap: map<string, int> := map[];
      for i := 0 to |expenses|
        invariant categoryMap == CategoryTotals(expenses[..i])
      {
        var e := expenses[i];
        CategoryTotalsAppend(expenses[..i], e);
        assert expenses[..i + 1] == expenses[..i] + [e];
        categoryMap := MergeSum(categoryMap, e.category, e.amount);
      }
      assert expenses[..|expenses|] == expenses;
      return Some(categoryMap);
    }

    // ------------------------------------------------------------ menus

    /** One pass of authenticate's switch on a choice already read: exactly LoginStep. */
    method LoginMenuChoice(choice: int)
      requires Valid() && phase == Unauthenticated
      modifies this`pos, this`phase, this`currentUser, this`expenses, this`userCredentials, this`files
      ensures Valid()
      ensures LoginState(phase, userCredentials, files, currentUser, pos)
           == LoginStep(old(userCredentials), old(files), input, old(pos), choice)
      ensures phase == Authenticated ==> expenses == LoadedOr(files, currentUser.value, old(expenses))
      ensures phase != Authenticated ==> expenses == old(expenses)
    {
      if choice == 1 {
        var ok := LoginUser();
      } else if choice == 2 {
        RegisterUser();
      } else if choice == 3 {
        // "Goodbye!" and System.exit(0)
        phase := Closed;
      }
      // any other number: "Invalid option."
    }

    /**
     * authenticate: the login menu, shown again after every choice until a
     * login succeeds or the session ends; the outcome is LoginMenuRun on the
     * unread input.
     */
    method Authenticate()
      requires Valid() && phase == Unauthenticated
      modifies this`pos, this`phase, this`currentUser, this`expenses, this`userCredentials, this`files
      ensures Valid()
      ensures LoginState(phase, userCredentials, files, currentUser, pos)
           == LoginMenuRun(old(userCredentials), old(files), input, old(pos), parseInt)
      ensures Extends(old(userCredentials), userCredentials)
      ensures
        || (files == old(files) && userCredentials == old(userCredentials))
        || files == WriteUsers(old(files), userCredentials)
      ensures phase == Authenticated ==> expenses == LoadedOr(old(files), currentUser.value, old(expenses))
      ensures phase == Closed ==> currentUser == old(currentUser) && expenses == old(expenses)
      ensures phase == Closed ==> pos == |input| || (0 < pos && parseInt(input[pos - 1]) == Some(3))
    {
      while phase == Unauthenticated
        invariant Valid()
        invariant LoginMenuRun(old(userCredentials), old(files), input, old(pos), parseInt)
               == if phase == Unauthenticated then LoginMenuRun(userCredentials, files, input, pos, parseInt)
                  else LoginState(phase, userCredentials, files, currentUser, pos)
        invariant phase != Authenticated ==> currentUser == old(currentUser) && expenses == old(expenses)
        invariant phase == Authenticated ==> expenses == LoadedOr(files, currentUser.value, old(expenses))
        decreases |input| - pos + (if phase == Unauthenticated then 1 else 0)
      {
        var choice := GetIntInput();
        if choice.None? {
          phase := Closed;
        } else {
          LoginMenuChoice(choice.value);
        }
      }
      LoginMenuRunKeeps(old(userCredentials), old(files), input, old(pos), parseInt);
      if phase == Authenticated {
        WriteThenReadUsers(old(files), userCredentials, currentUser.value);
      }
    }

    /** One pass of run's switch on a choice already read: exactly MainStep. */
    method MainMenuChoice(choice: int)
      requires Valid() && phase == Authenticated
      modifies this`pos, this`phase, this`expenses, this`files
      ensures Valid()
      ensures MainState(phase, expenses, files, pos)
           == MainStep(old(expenses), old(files), currentUser.value, input, old(pos), choice, parseDate, parseAmount)
    {
      if choice == 1 {
        AddExpense();
      } else if choice == 2 {
        var _ := ViewAllExpenses();
      } else if choice == 3 {
        var _ := ShowCategoryTotals();
      } else if choice == 4 {
        SaveUserExpenses();
        // "Data saved. Goodbye!"
        phase := Closed;
      }
      // any other number: "Invalid choice. Try again."
    }

    /**
     * run: the main menu, shown again after every choice until the user
     * exits (which saves the list) or the input ends (which saves nothing);
     * the outcome is MainMenuRun on the unread input.
     */
    method Run()
      requires Valid() && phase == Authenticated
      modifies this`pos, this`phase, this`expenses, this`files
      ensures Valid() && phase == Closed
      ensures MainState(phase, expenses, files, pos)
           == MainMenuRun(old(expenses), old(files), currentUser.value, input, old(pos), parseInt, parseDate, parseAmount)
      ensures multiset(old(expenses)) <= multiset(expenses)
      ensures AllPositive(old(expenses)) ==> AllPositive(expenses)
      ensures
        || files == WriteExpenses(old(files), currentUser.value, expenses)
        || (pos == |input| && files == old(files))
    {
      while phase == Authenticated
        invariant Valid()
        invariant phase == Authenticated || phase == Closed
        invariant currentUser.Some?
        invariant MainMenuRun(old(expenses), old(files), currentUser.value, input, old(pos), parseInt, parseDate, parseAmount)
               == if phase == Authenticated
                  then MainMenuRun(expenses, files, currentUser.value, input, pos, parseInt, parseDate, parseAmount)
                  else MainState(phase, expenses, files, pos)
        decreases |input| - pos + (if phase == Authenticated then 1 else 0)
      {
        var choice := GetIntInput();
        if choice.None? {
          phase := Closed;
        } else {
          MainMenuChoice(choice.value);
        }
      }
      MainMenuRunKeeps(old(expenses), old(files), currentUser.value, input, old(pos), parseInt, parseDate, parseAmount);
    }

    /**
     * main: the login menu, then the main menu once someone has logged in;
     * the outcome is LoginMenuRun followed, after a login, by MainMenuRun on
     * the user's loaded list.
     */
    method Start()
      requires Valid() && phase == Unauthenticated
      modifies this`pos, this`phase, this`currentUser, this`expenses, this`userCredentials, this`files
      ensures Valid() && phase == Closed
      ensures Extends(old(userCredentials), userCredentials)
      ensures var login := LoginMenuRun(old(userCredentials), old(files), input, old(pos), parseInt);
        && userCredentials == login.users
        && currentUser == login.user
        && (login.phase == Closed ==> files == login.files && pos == login.pos && expenses == old(expenses))
        && (login.phase == Authenticated ==>
              MainState(Closed, expenses, files, pos)
              == MainMenuRun(LoadedOr(old(files), login.user.value, old(expenses)), login.files, login.user.value,
                             input, login.pos, parseInt, parseDate, parseAmount))
    {
      Authenticate();
      if phase == Authenticated {
        Run();
      }
    }
  }

  /** A parser that accepts nothing, for sessions that never reach a numeric prompt. */
  function NoNumber(line: string): Option<int> {
    None
  }

  /**
   * Registering a fresh username and then logging in with it succeeds with
   * the password given at registration and fails with any other.
   */
  method RegisterThenLogin(files: map<string, Stored>, user: string, password: string, wrong: string)
    returns (okWrong: bool, ok: bool)
    requires ReadUsers(files).Some? ==> Trim(user) !in ReadUsers(files).value
    requires Trim(wrong) != Trim(password)
    ensures !okWrong && ok
  {
    var t := new ExpenseTracker([user, password, user, wrong, user, password], files,
                                NoNumber, NoNumber, NoNumber);
    t.RegisterUser();
    okWrong := t.LoginUser();
    ok := t.LoginUser();
  }

  /**
   * A list saved for a user is exactly what that user's next login loads,
   * whatever else the file system holds.
   */
  method RelaunchRestoresExpenses(files: map<string, Stored>, user: string, password: string,
                                  items: seq<Expense>)
    returns (loaded: seq<Expense>)
    requires ReadUsers(files).Some? && Trim(user) in ReadUsers(files).value
    requires ReadUsers(files).value[Trim(user)] == Trim(password)
    ensures loaded == items
  {
    var saved := WriteExpenses(files, Trim(user), items);
    WriteThenReadExpenses(files, Trim(user), items, Trim(user));
    var t := new ExpenseTracker([user, password], saved, NoNumber, NoNumber, NoNumber);
    var ok := t.LoginUser();
    loaded := t.expenses;
  }
}
