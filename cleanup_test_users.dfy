/**
 * The test-user cleanup script (backend/cleanup-test-users.js): its argument
 * parser, the choice between reporting, previewing and deleting, the
 * per-user deletion record, and the success/failure tally.
 *
 * The database and Supabase calls are inputs: for each user, the error
 * message its deletion failed with, or `None` when it succeeded.
 */
module CleanupTestUsers {
  import opened Wrappers
  import opened JsString

  const DefaultEmailPattern: string := "@example.com"
  const DefaultNamePattern: string := "Test User"

  datatype Config = Config(emailPattern: string, namePattern: string, dryRun: bool, confirm: bool)

  const DefaultConfig: Config := Config(DefaultEmailPattern, DefaultNamePattern, false, false)

  /** What `parseArgs` ends in: a configuration, or the help text and `process.exit(0)`. */
  datatype ParseOutcome = Run(config: Config) | ShowHelp

  // ---- parseArgs ----

  /** Whether `args[i]` exists and is a non-empty string (JavaScript truthiness). */
  predicate HasValue(args: seq<string>, i: nat) {
    i < |args| && args[i] != ""
  }

  /**
   * The `for` loop of `parseArgs` from index `i` with the configuration built
   * so far: a value flag takes a truthy next argument and skips it, and is
   * otherwise ignored like any unknown argument.
   */
  function ParseFrom(config: Config, args: seq<string>, i: nat): ParseOutcome
    decreases |args| - i
  {
    if i >= |args| then Run(config)
    else
      var arg := args[i];
      if arg == "--pattern" && HasValue(args, i + 1) then ParseFrom(config.(emailPattern := args[i + 1]), args, i + 2)
      else if arg == "--name" && HasValue(args, i + 1) then ParseFrom(config.(namePattern := args[i + 1]), args, i + 2)
      else if arg == "--dry-run" then ParseFrom(config.(dryRun := true), args, i + 1)
      else if arg == "--confirm" then ParseFrom(config.(confirm := true), args, i + 1)
      else if arg == "--help" || arg == "-h" then ShowHelp
      else ParseFrom(config, args, i + 1)
  }

  /** `parseArgs()` on `process.argv.slice(2)`. */
  method ParseArgs(args: seq<string>) returns (outcome: ParseOutcome)
    ensures outcome == ParseFrom(DefaultConfig, args, 0)
  {
    var config := DefaultConfig;
    var i := 0;
    while i < |args|
      invariant i <= |args| + 1
      invariant ParseFrom(config, args, i) == ParseFrom(DefaultConfig, args, 0)
      decreases |args| - i
    {
      var arg := args[i];
      if arg == "--pattern" && i + 1 < |args| && args[i + 1] != "" {
        config := config.(emailPattern := args[i + 1]);
        i := i + 1;
      } else if arg == "--name" && i + 1 < |args| && args[i + 1] != "" {
        config := config.(namePattern := args[i + 1]);
        i := i + 1;
      } else if arg == "--dry-run" {
        config := config.(dryRun := true);
      } else if arg == "--confirm" {
        config := config.(confirm := true);
      } else if arg == "--help" || arg == "-h" {
        return ShowHelp;
      } else {
        assert ParseFrom(config, args, i) == ParseFrom(config, args, i + 1);
      }
      i := i + 1;
    }
    return Run(config);
  }

  /**
   * Nothing the parser does clears a flag or empties a pattern: `--dry-run`
   * and `--confirm` stay set once seen, and patterns only take non-empty values.
   */
  lemma {:induction false} ParseFromMonotone(config: Config, args: seq<string>, i: nat)
    ensures ParseFrom(config, args, i).Run? ==>
      var r := ParseFrom(config, args, i).config;
      && (config.dryRun ==> r.dryRun) && (config.confirm ==> r.confirm)
      && (config.emailPattern != "" ==> r.emailPattern != "")
      && (config.namePattern != "" ==> r.namePattern != "")
    decreases |args| - i
  {
    if i < |args| {
      var arg := args[i];
      if arg == "--pattern" && HasValue(args, i + 1) {
        ParseFromMonotone(config.(emailPattern := args[i + 1]), args, i + 2);
      } else if arg == "--name" && HasValue(args, i + 1) {
        ParseFromMonotone(config.(namePattern := args[i + 1]), args, i + 2);
      } else if arg == "--dry-run" {
        ParseFromMonotone(config.(dryRun := true), args, i + 1);
      } else if arg == "--confirm" {
        ParseFromMonotone(config.(confirm := true), args, i + 1);
      } else if !(arg == "--help" || arg == "-h") {
        ParseFromMonotone(config, args, i + 1);
      }
    }
  }

  /** With no `--pattern` left to read, the email pattern stays as it is. */
  lemma {:induction false} PatternUntouched(config: Config, args: seq<string>, i: nat)
    requires forall k :: i <= k < |args| ==> args[k] != "--pattern"
    ensures ParseFrom(config, args, i).Run? ==> ParseFrom(config, args, i).config.emailPattern == config.emailPattern
    decreases |args| - i
  {
    if i < |args| {
      var arg := args[i];
      if arg == "--name" && HasValue(args, i + 1) {
        PatternUntouched(config.(namePattern := args[i + 1]), args, i + 2);
      } else if arg == "--dry-run" {
        PatternUntouched(config.(dryRun := true), args, i + 1);
      } else if arg == "--confirm" {
        PatternUntouched(config.(confirm := true), args, i + 1);
      } else if !(arg == "--help" || arg == "-h") {
        PatternUntouched(config, args, i + 1);
      }
    }
  }

  /** The last `--pattern <value>` read decides the email pattern. */
  lemma LastPatternWins(config: Config, args: seq<string>, i: nat)
    requires i + 1 < |args| && args[i] == "--pattern" && args[i + 1] != ""
    requires forall k :: i + 2 <= k < |args| ==> args[k] != "--pattern"
    ensures ParseFrom(config, args, i).Run? ==> ParseFrom(config, args, i).config.emailPattern == args[i + 1]
  {
    PatternUntouched(config.(emailPattern := args[i + 1]), args, i + 2);
  }

  // ---- findTestUsers and the decision in main ----

  /** A row of the user table as the script selects it. */
  datatype TestUser = TestUser(id: string, email: string, name: string, supabaseUserId: Option<string>)

  /** The `OR` of the two `contains` filters. */
  predicate Matches(user: TestUser, config: Config) {
    Contains(user.email, config.emailPattern) || Contains(user.name, config.namePattern)
  }

  /** `findTestUsers`: the matching rows, in table order. */
  function FindTestUsers(users: seq<TestUser>, config: Config): (found: seq<TestUser>)
    ensures |found| <= |users|
    ensures forall u :: u in found <==> u in users && Matches(u, config)
  {
    if users == [] then []
    else
      var last := users[|users| - 1];
      FindTestUsers(users[..|users| - 1], config) + (if Matches(last, config) then [last] else [])
  }

  /** How `main` ends once the users are found. */
  datatype Action = NothingFound | AskForConfirm | PreviewOnly | DeleteAll

  function Decide(found: nat, config: Config): Action {
    if found == 0 then NothingFound
    else if !config.dryRun && !config.confirm then AskForConfirm
    else if config.dryRun then PreviewOnly
    else DeleteAll
  }

  /** Deletion happens exactly when users matched, `--confirm` was given and `--dry-run` was not. */
  lemma DecideDeletes(found: nat, config: Config)
    ensures Decide(found, config) == DeleteAll <==> found > 0 && config.confirm && !config.dryRun
    ensures Decide(found, config) == PreviewOnly <==> found > 0 && config.dryRun
    ensures Decide(found, config) == AskForConfirm <==> found > 0 && !config.dryRun && !config.confirm
  {
  }

  // ---- deleteUser and the tally ----

  /** `{success, skipped, error}` of one deletion call. */
  datatype CallResult = CallResult(success: bool, skipped: bool, error: Option<string>)

  datatype DeleteRecord = DeleteRecord(email: string, name: string, db: CallResult, supabase: CallResult)

  /** The result object of a call that failed with `error`, or succeeded when it is `None`. */
  function CallOutcome(error: Option<string>): CallResult {
    if error.Some? then CallResult(false, false, error) else CallResult(true, false, None)
  }

  /**
   * `deleteUser(user)`: without a (truthy) Supabase id the Supabase step is
   * skipped and counts as successful; the database row is deleted either way.
   */
  function DeleteUser(user: TestUser, supabaseError: Option<string>, dbError: Option<string>): (r: DeleteRecord)
    ensures r.email == user.email && r.name == user.name && r.db == CallOutcome(dbError)
    ensures !Truthy(user.supabaseUserId) ==> r.supabase == CallResult(true, true, None)
    ensures Truthy(user.supabaseUserId) ==> r.supabase == CallOutcome(supabaseError)
  {
    var supabase := if Truthy(user.supabaseUserId) then CallOutcome(supabaseError) else CallResult(true, true, None);
    DeleteRecord(user.email, user.name, CallOutcome(dbError), supabase)
  }

  /** The test that counts a deletion as successful. */
  predicate Succeeded(r: DeleteRecord) {
    r.db.success && r.supabase.success
  }

  /** The filter of the "Failed Deletions" list. */
  predicate Reported(r: DeleteRecord) {
    !r.db.success || (Truthy(r.supabase.error) && !r.supabase.skipped)
  }

  function CountSucceeded(records: seq<DeleteRecord>): (n: nat)
    ensures n <= |records|
  {
    if records == [] then 0
    else CountSucceeded(records[..|records| - 1]) + (if Succeeded(records[|records| - 1]) then 1 else 0)
  }

  /**
   * A deletion is listed as failed only if it was counted as failed, and every
   * failed deletion is listed unless its error message is the empty string.
   */
  lemma ReportedIffFailed(user: TestUser, supabaseError: Option<string>, dbError: Option<string>)
    ensures var r := DeleteUser(user, supabaseError, dbError);
      && (Reported(r) ==> !Succeeded(r))
      && (!Succeeded(r) && (supabaseError.Some? ==> supabaseError.value != "") ==> Reported(r))
  {
  }

  /**
   * The deletion loop of `main`: every found user gets a record, and the two
   * counters split the users into successes and failures.
   */
  method DeleteFound(testUsers: seq<TestUser>, supabaseErrors: seq<Option<string>>, dbErrors: seq<Option<string>>)
    returns (results: seq<DeleteRecord>, successCount: nat, failCount: nat)
    requires |supabaseErrors| == |testUsers| && |dbErrors| == |testUsers|
    ensures |results| == |testUsers|
    ensures forall k :: 0 <= k < |testUsers| ==> results[k] == DeleteUser(testUsers[k], supabaseErrors[k], dbErrors[k])
    ensures successCount == CountSucceeded(results)
    ensures successCount + failCount == |testUsers|
  {
    results := [];
    successCount := 0;
    failCount := 0;
    for k := 0 to |testUsers|
      invariant |results| == k
      invariant forall j :: 0 <= j < k ==> results[j] == DeleteUser(testUsers[j], supabaseErrors[j], dbErrors[j])
      invariant successCount == CountSucceeded(results)
      invariant successCount + failCount == k
    {
      var result := DeleteUser(testUsers[k], supabaseErrors[k], dbErrors[k]);
      assert (results + [result])[..k] == results;
      results := results + [result];
      if result.db.success && result.supabase.success {
        successCount := successCount + 1;
      } else {
        failCount := failCount + 1;
      }
    }
  }
}
