# Expense tracker, modelled in Dafny

This project models the `ExpenseTracker` class of a console expense ledger
(`project1/src/Expense/ExpenseTracker.java`). Users register or log in with a
username and password, both trimmed. A logged-in user adds dated expenses,
each with a category, an amount and a description. They can list the
expenses most recent first with their total and see the sum per category.
The credential table and each user's list survive between runs in files.

Files and modules:

- `wrappers.dfy` (`Wrappers`): `Option`.
- `text.dfy` (`Text`): Java's `String.trim`, applied to every username,
  password, category and description read.
- `retry.dfy` (`Retry`): the retry-until-valid prompts `getIntInput`,
  `getValidDate` and `getPositiveDouble`. It has a specification function,
  `ReadValue`, and the loop `ReadUntilAccepted` that is proved against it.
- `ledger.dfy` (`Ledger`): the `Expense` record and the total. It holds the
  stable most-recent-first sort (`List.sort` with the comparator
  `e2.date.compareTo(e1.date)`, which is stable). It also holds the category
  totals (`Map.merge` with `Double::sum`).
- `storage.dfy` (`Storage`): serialized files as a map from file name to the
  object stored in the file. `users.dat` holds the table, and
  `expenses_<user>.dat` holds a user's list.
- `session.dfy` (`Session`): what a session does with the console lines, as
  functions of the state and the input. It holds the reads of the prompts,
  one pass of each menu's switch (`LoginStep`, `MainStep`), and a whole run
  of each menu loop (`LoginMenuRun`, `MainMenuRun`), with lemmas about them.
- `tracker.dfy` (`Tracker`): the class `ExpenseTracker`. Its fields are the
  credential table, the expense list, the current user and the file system.
  It also has the console, as a sequence of lines with a cursor, and the
  session phase.

Representation choices:

- Amounts are integers (cents) and dates are integers (day stamps).
- The three parsers (`Integer.parseInt`, `Double.parseDouble` in cents,
  `SimpleDateFormat.parse`) are functions `string -> Option<int>` given to
  the constructor.
- The console is a finite sequence of lines. Reading past the last line
  models the Scanner's `NoSuchElementException`. No code catches it, so the
  session ends at once and nothing is saved. The model shows this as the
  move to the `Closed` phase.
- `System.exit(0)` in the login menu and the return from `run` after saving
  are also the move to `Closed`.
- The session phases are `Unauthenticated`, then `Authenticated`, then
  `Closed`.

`viewAllExpenses` sorts the list field itself (`ExpenseTracker.java:157`),
so after a listing the stored and the saved order are the sorted order.
`ViewAllExpenses` therefore assigns the sorted list to `expenses`. The
lemmas show that this changes no multiset, total, category sum or same-date
order.

## Model

| member | source | states |
|---|---|---|
| Text.Trim | project1/src/Expense/ExpenseTracker.java:250 | definition of String.trim: cut the blank prefix (LeadingBlanks), then the blank suffix of what remains (TrailingBlanks); its properties are stated by TrimSlice, TrimIdempotent and TrimUnchanged |
| Text.TrimSlice | project1/src/Expense/ExpenseTracker.java:250 | the trimmed line is the slice left after cutting an all-blank prefix and an all-blank suffix (characters at or below U+0020), and it neither starts nor ends with a blank |
| Text.TrimIdempotent | project1/src/Expense/ExpenseTracker.java:250 | trimming an already trimmed line changes nothing |
| Text.TrimUnchanged | project1/src/Expense/ExpenseTracker.java:250 | a line without blanks at either end is its own trim |
| Text.TrimExample | project1/src/Expense/ExpenseTracker.java:76 | " alice\t" is read as the username "alice" |
| Text.LeadingBlanksExact | project1/src/Expense/ExpenseTracker.java:250 | the prefix that trim removes is all blank and the next character is not |
| Text.TrailingBlanksExact | project1/src/Expense/ExpenseTracker.java:250 | the suffix that trim removes is all blank and the character before it is not |
| Retry.FirstAccepted | project1/src/Expense/ExpenseTracker.java:253-262 | definition of where a retrying prompt stops: the index of the first accepted line from the cursor on, or the end of input, never before the cursor; FirstAcceptedIsFirst states that it is the first |
| Retry.FirstAcceptedIsFirst | project1/src/Expense/ExpenseTracker.java:253-262 | the retry loop stops at the first line that parses (and meets the requirement); every line it skips was rejected |
| Retry.ReadValue | project1/src/Expense/ExpenseTracker.java:253-262 | a successful retrying read consumes at least one line and no more than remain; with the positive requirement the value is above zero |
| Retry.ReadUntilAccepted | project1/src/Expense/ExpenseTracker.java:253-262 | the read-parse-retry loop returns the value of the first accepted line, having consumed exactly the lines up to it, all earlier ones rejected; at end of input every remaining line was rejected; the result agrees with ReadValue |
| Retry.ReadValueLast | project1/src/Expense/ExpenseTracker.java:253-262 | the value a retrying read returns is the parse of the last line it consumed |
| Retry.FirstPositive | project1/src/Expense/ExpenseTracker.java:235-246 | getPositiveDouble returns the first value above zero; every line before it failed to parse or was at or below zero |
| Ledger.Total | project1/src/Expense/ExpenseTracker.java:164 | definition of the total shown by viewAllExpenses: the sum of all amounts, 0 for an empty list; TotalAppend, TotalPositive and TotalSortInvariant state its properties |
| Ledger.Insert | project1/src/Expense/ExpenseTracker.java:157 | definition of one step of the sort: put the record in front of the first record dated at or before it; InsertMultiset, InsertSorted and InsertWithDate state its properties |
| Ledger.SortByDateDesc | project1/src/Expense/ExpenseTracker.java:157 | definition of List.sort with the most-recent-first comparator, as insertion sort; SortByDateDescCorrect states that it is sorted, a permutation and stable |
| Ledger.CategoryTotals | project1/src/Expense/ExpenseTracker.java:174-177 | independent definition of the category map: one key per category present, mapped to the sum of its amounts; ShowCategoryTotals is proved equal to it |
| Ledger.MergeSum | project1/src/Expense/ExpenseTracker.java:176 | definition of Map.merge with Double::sum: store the amount when the key is absent, else add it to the stored value; CategoryTotalsAppend states that one merge per record builds CategoryTotals |
| Ledger.AppendPositive | project1/src/Expense/ExpenseTracker.java:140-147 | adding a record whose amount passed the positive prompt keeps every amount positive |
| Ledger.TotalAppend | project1/src/Expense/ExpenseTracker.java:164 | the total after one more add is the old total plus its amount |
| Ledger.TotalPositive | project1/src/Expense/ExpenseTracker.java:164 | with positive amounts, the total is 0 exactly for the empty list and positive otherwise |
| Ledger.InsertMultiset | project1/src/Expense/ExpenseTracker.java:157 | one insertion step of the sort adds exactly one record and loses none |
| Ledger.InsertAtMost | project1/src/Expense/ExpenseTracker.java:157 | inserting a record no later than a bound keeps every date at or below the bound |
| Ledger.ConsSorted | project1/src/Expense/ExpenseTracker.java:157 | a record at least as recent as every record of a sorted list can go in front of it |
| Ledger.InsertSorted | project1/src/Expense/ExpenseTracker.java:157 | one insertion step keeps the list ordered most recent first |
| Ledger.InsertWithDate | project1/src/Expense/ExpenseTracker.java:157 | the inserted record goes in front of the records with its own date, so their relative order is kept |
| Ledger.TotalInsert | project1/src/Expense/ExpenseTracker.java:157-164 | one insertion step adds exactly the record's amount to the total |
| Ledger.SortByDateDescCorrect | project1/src/Expense/ExpenseTracker.java:157 | the sort's result is ordered most recent first, is a permutation of its input, and keeps the input order among records of the same date (stable) |
| Ledger.SortByDateDescKeepsPositive | project1/src/Expense/ExpenseTracker.java:157 | sorting keeps the length and keeps every amount positive |
| Ledger.TotalSortInvariant | project1/src/Expense/ExpenseTracker.java:157-164 | the total shown after sorting equals the total before sorting |
| Ledger.SortByDateDescIdempotent | project1/src/Expense/ExpenseTracker.java:157 | sorting an already sorted list changes nothing, so listing twice gives the same order |
| Ledger.SortScenario | project1/src/Expense/ExpenseTracker.java:157 | Food on 2024-01-05 then Transport on 2024-01-10 are listed Transport first |
| Ledger.CategorySumAppend | project1/src/Expense/ExpenseTracker.java:175-177 | one more record adds its amount to its own category's sum and nothing to any other |
| Ledger.CategoryTotalsAppend | project1/src/Expense/ExpenseTracker.java:174-177 | the category map of a list with one more record is the old map after one merge of that record's category and amount |
| Ledger.CategorySumAbsent | project1/src/Expense/ExpenseTracker.java:174-177 | a category that no record carries sums to zero |
| Ledger.CategorySumBounds | project1/src/Expense/ExpenseTracker.java:174-177 | with positive amounts, each category sum lies between 0 and the grand total, and it is positive exactly for the categories present |
| Ledger.CategorySumInsert | project1/src/Expense/ExpenseTracker.java:174-177 | one insertion step of the sort adds the record's amount to its own category only |
| Ledger.CategorySumSortInvariant | project1/src/Expense/ExpenseTracker.java:157-177 | the category sums after a listing (which reorders the list) are those before it |
| Ledger.CategoryTotalsExample | project1/src/Expense/ExpenseTracker.java:174-177 | Food 10.00, Food 5.50 and Transport 3.00 give exactly {Food: 15.50, Transport: 3.00} |
| Storage.ExpenseFileName | project1/src/Expense/ExpenseTracker.java:186 | a user's file is "expenses_" followed by the username and ".dat", and it is never the credential file |
| Storage.ExpenseFileNameInjective | project1/src/Expense/ExpenseTracker.java:186 | in the file-name map (exact, case-sensitive names), different users never share an expense file |
| Storage.ReadUsers | project1/src/Expense/ExpenseTracker.java:213-223 | definition of reading users.dat: the stored table, or nothing when the file is missing or holds something else; WriteThenReadUsers states the round trip |
| Storage.WriteUsers | project1/src/Expense/ExpenseTracker.java:205-211 | definition of saving the table: users.dat is replaced by the whole table, every other file kept; WriteThenReadUsers and WriteUsersTwice state its properties |
| Storage.ReadExpenses | project1/src/Expense/ExpenseTracker.java:193-203 | definition of reading a user's file: the stored list, or nothing when the file is missing or holds something else; WriteThenReadExpenses states the round trip |
| Storage.WriteExpenses | project1/src/Expense/ExpenseTracker.java:184-191 | definition of saving a user's list: that user's file is replaced by the whole list, every other file kept; WriteThenReadExpenses states its properties |
| Storage.WriteUsersTwice | project1/src/Expense/ExpenseTracker.java:205-207 | saving the table twice leaves only the second table |
| Storage.WriteThenReadExpenses | project1/src/Expense/ExpenseTracker.java:184-203 | loading a user's list after saving it yields that list; saving one user's list changes no other user's list and not the credential table |
| Storage.WriteThenReadUsers | project1/src/Expense/ExpenseTracker.java:205-223 | loading the table after saving it yields that table; saving the table changes no expense list |
| Session.ReadText | project1/src/Expense/ExpenseTracker.java:248-251 | getStringInput yields a line exactly when one remains, and consumes exactly one |
| Session.ReadExpense | project1/src/Expense/ExpenseTracker.java:140-145 | the record read by addExpense has a positive amount and takes at least four lines |
| Session.LoginStep | project1/src/Expense/ExpenseTracker.java:58-70 | definition of one pass of authenticate's switch. 1 is loginUser: two lines are read, and the user is logged in iff the trimmed pair matches. 2 is registerUser: a taken name is refused after one line, and a fresh name inserts the pair and saves the table after two. 3 is System.exit, other numbers do nothing, and running out of lines closes. LoginStepKeeps states its properties |
| Session.LoginMenuRun | project1/src/Expense/ExpenseTracker.java:52-72 | definition of the login loop: read a choice with getIntInput, take one LoginStep, repeat until logged in or closed; it always ends in one of the two, logged in exactly when a user is bound |
| Session.LoginStepKeeps | project1/src/Expense/ExpenseTracker.java:58-103 | one pass keeps every credential; the table changes only by choice 2, which saves it at once; the session closes only on choice 3 or at the end of input; a login binds a registered user |
| Session.LoginMenuRunKeeps | project1/src/Expense/ExpenseTracker.java:52-72 | over a whole login loop every credential is kept; users.dat is untouched with the table unchanged or holds the final table; the loop closes only at the end of input or right after a line reading 3; a login binds a registered user |
| Session.MainStep | project1/src/Expense/ExpenseTracker.java:112-128 | definition of one pass of run's switch: 1 appends the record addExpense reads (or closes when the lines run out); 2 sorts a non-empty list in place; 3 changes nothing; 4 saves the list and closes; other numbers do nothing |
| Session.MainMenuRun | project1/src/Expense/ExpenseTracker.java:105-130 | definition of the main loop: read a choice with getIntInput, take one MainStep, repeat until closed; it always ends closed |
| Session.MainStepKeeps | project1/src/Expense/ExpenseTracker.java:112-128 | one pass loses no record and keeps amounts positive; only choice 4 touches the files, saving the list as it stands; the session closes only on choice 4 or at the end of input |
| Session.MainMenuRunKeeps | project1/src/Expense/ExpenseTracker.java:105-130 | over a whole main loop no record is lost and amounts stay positive; either the final list is saved to the user's file or the input ran out with the files untouched |
| Session.ExitSavesAtOnce | project1/src/Expense/ExpenseTracker.java:122-125 | on the input "4" the main menu saves the list unchanged and closes after one line |
| Session.LoginAtOnce | project1/src/Expense/ExpenseTracker.java:58-88 | on the input "1", username, password with a matching pair the login menu ends logged in as that user after three lines, with nothing changed |
| Session.AddThenExitSaves | project1/src/Expense/ExpenseTracker.java:112-149 | adding one expense and exiting saves the list with that record (trimmed category and description, parsed date and amount) appended, and the user's file reads back as that list |
| Tracker.ExpenseTracker.constructor | project1/src/Expense/ExpenseTracker.java:38-44 | a new tracker has an empty list, no user, an unread console and the stored table if users.dat holds one, otherwise an empty table |
| Tracker.ExpenseTracker.NextLine | project1/src/Expense/ExpenseTracker.java:250 | scanner.nextLine yields the next line and advances by one; at end of input it yields nothing |
| Tracker.ExpenseTracker.GetStringInput | project1/src/Expense/ExpenseTracker.java:248-251 | yields the next line trimmed and advances by one, as ReadText says |
| Tracker.ExpenseTracker.GetIntInput | project1/src/Expense/ExpenseTracker.java:253-262 | yields the first integer line and moves past it, as ReadValue says, so the last line consumed parses to the choice; at end of input it yields nothing with the input used up |
| Tracker.ExpenseTracker.GetValidDate | project1/src/Expense/ExpenseTracker.java:224-233 | yields the first line that parses as a date and moves past it, as ReadValue says |
| Tracker.ExpenseTracker.GetPositiveDouble | project1/src/Expense/ExpenseTracker.java:235-246 | yields the first amount above zero, the parse of the line just consumed; every skipped line was unparsable or at or below zero |
| Tracker.ExpenseTracker.LoadUserCredentials | project1/src/Expense/ExpenseTracker.java:213-223 | replaces the table by the stored one; a missing or unreadable file keeps the table |
| Tracker.ExpenseTracker.SaveUserCredentials | project1/src/Expense/ExpenseTracker.java:205-211 | overwrites users.dat with the whole table, which then reads back as the table |
| Tracker.ExpenseTracker.LoadUserExpenses | project1/src/Expense/ExpenseTracker.java:193-203 | replaces the list by the user's stored list; a missing or unreadable file keeps the list |
| Tracker.ExpenseTracker.SaveUserExpenses | project1/src/Expense/ExpenseTracker.java:184-191 | overwrites the user's file with the whole list, which then reads back as the list |
| Tracker.ExpenseTracker.RegisterUser | project1/src/Expense/ExpenseTracker.java:90-103 | a taken trimmed username is refused after one line with nothing changed. A fresh one takes two lines, inserts (username, password), saves the table and does not log in. Input running out ends the session with nothing changed |
| Tracker.ExpenseTracker.LoginUser | project1/src/Expense/ExpenseTracker.java:74-88 | succeeds iff the trimmed username is registered with exactly the trimmed password. Success binds the user and loads their list; failure changes nothing. Input running out ends the session |
| Tracker.ExpenseTracker.ReadExpenseInput | project1/src/Expense/ExpenseTracker.java:140-145 | reads date, category, amount and description with the four prompts, exactly as ReadExpense composes them |
| Tracker.ExpenseTracker.AddExpense | project1/src/Expense/ExpenseTracker.java:140-149 | appends the record read, keeping the old list as a prefix and every amount positive; if the input ends first the session ends and the list is unchanged |
| Tracker.ExpenseTracker.ViewAllExpenses | project1/src/Expense/ExpenseTracker.java:151-166 | an empty list is reported and left alone. Otherwise the list becomes its stable most-recent-first sort, a permutation of it, and the total shown is the sum of all amounts |
| Tracker.ExpenseTracker.ShowCategoryTotals | project1/src/Expense/ExpenseTracker.java:168-183 | on a non-empty list the merge loop yields a map whose keys are exactly the categories present and whose values are their sums; an empty list yields nothing |
| Tracker.ExpenseTracker.LoginMenuChoice | project1/src/Expense/ExpenseTracker.java:58-70 | the phase, table, files, user and cursor after one pass are exactly LoginStep of the state before; a login loads the user's stored list, otherwise the list is unchanged |
| Tracker.ExpenseTracker.Authenticate | project1/src/Expense/ExpenseTracker.java:52-72 | the phase, table, files, user and cursor at the end are exactly LoginMenuRun on the unread input. Hence earlier credentials keep their passwords, and the table is unchanged or saved to users.dat. It closes only on choice 3 or at the end of input, and a login leaves the user's stored list loaded |
| Tracker.ExpenseTracker.MainMenuChoice | project1/src/Expense/ExpenseTracker.java:112-128 | the phase, list, files and cursor after one pass are exactly MainStep of the state before |
| Tracker.ExpenseTracker.Run | project1/src/Expense/ExpenseTracker.java:105-130 | the phase, list, files and cursor at the end are exactly MainMenuRun on the unread input. Hence the session ends closed, no record is lost and amounts stay positive. Either the final list is saved to the user's file, or the input ran out with the files untouched |
| Tracker.ExpenseTracker.Start | project1/src/Expense/ExpenseTracker.java:46-50 | the session is LoginMenuRun on the input followed, after a login, by MainMenuRun from the user's loaded list; it always ends closed and never loses a credential |
| Tracker.RegisterThenLogin | project1/src/Expense/ExpenseTracker.java:74-103 | after registering a fresh user, logging in with a different password fails and with the registered password succeeds |
| Tracker.RelaunchRestoresExpenses | project1/src/Expense/ExpenseTracker.java:184-203 | a list saved for a user is exactly the list their login in a new tracker loads |

## Left out

- Console output is not modelled: the prompts, the menus (`printMenu`), the
  messages, `Expense.toString` and `getFormattedDate`, and the two-decimal
  formatting of totals.
- The order in which `showCategoryTotals` prints the entries is not
  modelled. It is the iteration order of a `HashMap`, so the result is
  modelled as a map.
- Java serialization is not modelled. Each file holds an abstract stored
  value: a table, a list or something unreadable.
- `IOException` on saving is not modelled: every write succeeds. A read
  failure is modelled like a missing file (nothing is loaded).
- The parsers are left abstract: how `Integer.parseInt`,
  `Double.parseDouble` and the lenient `SimpleDateFormat("yyyy-MM-dd")`
  accept text. Amounts are whole cents, so `double` rounding and amounts
  below one cent are not modelled.
- Case-insensitive file systems are not modelled. File names are exact
  strings, so the usernames "Alice" and "alice" have distinct files in the
  model. On a case-insensitive file system both would write
  `expenses_alice.dat`, and one user's save would replace the other's list.
- Non-finite amounts are not modelled. `Double.parseDouble` accepts
  "Infinity", which passes the `value > 0` test and would be stored.
  Amounts in the model are whole cents, so an accepted amount is always a
  finite positive number.
- Input that never ends is not modelled. The console is finite, so every
  retry loop and both menus are shown to end: at the latest, the input runs
  out.
