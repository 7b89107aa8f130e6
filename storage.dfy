/**
 * Persistence by Java object serialization, with the file system abstracted
 * as a map from file name to the object stored in that file. One file holds
 * the whole username-to-password table; one file per user holds that user's
 * whole expense list. Every write replaces the file's previous content.
 */
module Storage {
  import opened Wrappers
  import opened Ledger

  /** What deserializing a file yields: the table, a list, or something unreadable. */
  datatype Stored = UserTable(users: map<string, string>) | ExpenseList(items: seq<Expense>) | Unreadable

  const UsersFile: string := "users.dat"
  const ExpenseFilePrefix: string := "expenses_"

  /** The per-user expense file: "expenses_" + username + ".dat". */
  function ExpenseFileName(user: string): (name: string)
    ensures |name| == |user| + 13
    ensures name[..9] == ExpenseFilePrefix && name[9..9 + |user|] == user && name[9 + |user|..] == ".dat"
    ensures name != UsersFile
  {
    var name := ExpenseFilePrefix + user + ".dat";
    assert name[0] == 'e' != UsersFile[0];
    name
  }

  /** Distinct users never share an expense file. */
  lemma ExpenseFileNameInjective(u: string, v: string)
    requires ExpenseFileName(u) == ExpenseFileName(v)
    ensures u == v
  {
    var n := ExpenseFileName(u);
    assert |u| == |v|;
    assert u == n[9..9 + |u|] == v;
  }

  /** loadUserCredentials: the stored table, or nothing when the file is absent or unreadable. */
  function ReadUsers(files: map<string, Stored>): Option<map<string, string>> {
    if UsersFile in files && files[UsersFile].UserTable? then Some(files[UsersFile].users) else None
  }

  /** saveUserCredentials: overwrite the table file with the whole table. */
  function WriteUsers(files: map<string, Stored>, users: map<string, string>): map<string, Stored> {
    files[UsersFile := UserTable(users)]
  }

  /** Saving the table twice leaves only the second table on disk. */
  lemma WriteUsersTwice(files: map<string, Stored>, first: map<string, string>, second: map<string, string>)
    ensures WriteUsers(WriteUsers(files, first), second) == WriteUsers(files, second)
  {
  }

  /** loadUserExpenses: the user's stored list, or nothing when absent or unreadable. */
  function ReadExpenses(files: map<string, Stored>, user: string): Option<seq<Expense>> {
    var name := ExpenseFileName(user);
    if name in files && files[name].ExpenseList? then Some(files[name].items) else None
  }

  /** saveUserExpenses: overwrite the user's file with the whole list. */
  function WriteExpenses(files: map<string, Stored>, user: string, items: seq<Expense>): map<string, Stored> {
    files[ExpenseFileName(user) := ExpenseList(items)]
  }

  /**
   * Save-then-load round trip: the list read back is the list written, and
   * writing one user's file neither touches another user's list nor the
   * credential table.
   */
  lemma WriteThenReadExpenses(files: map<string, Stored>, user: string, items: seq<Expense>, other: string)
    ensures ReadExpenses(WriteExpenses(files, user, items), user) == Some(items)
    ensures other != user ==> ReadExpenses(WriteExpenses(files, user, items), other) == ReadExpenses(files, other)
    ensures ReadUsers(WriteExpenses(files, user, items)) == ReadUsers(files)
  {
    if other != user && ExpenseFileName(other) == ExpenseFileName(user) {
      ExpenseFileNameInjective(other, user);
    }
  }

  /** Writing the credential table reads back as that table and leaves every expense list as it was. */
  lemma WriteThenReadUsers(files: map<string, Stored>, users: map<string, string>, user: string)
    ensures ReadUsers(WriteUsers(files, users)) == Some(users)
    ensures ReadExpenses(WriteUsers(files, users), user) == ReadExpenses(files, user)
  {
  }
}
