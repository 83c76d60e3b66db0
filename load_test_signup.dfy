/**
 * The signup load-test script (backend/load-test-signup.js): its argument
 * parser, the numbered test users, the slicing into batches, the result of
 * each request, and the success/failure split and error breakdown.
 *
 * Each request's outcome is an input (`Outcome`): the HTTP status with the
 * reply's `error` text, or the message of the exception `fetch` threw. The
 * random e-mail, phone and skill of each user, the clock and the timing
 * statistics are not part of this model.
 */
module LoadTestSignup {
  import opened Wrappers
  import opened JsString
  import opened Seqs

  const DefaultUsers: int := 10
  const DefaultConcurrent: int := 5
  const DefaultDelay: int := 100
  const DefaultApiUrl: string := "http://localhost:5001"

  /** The numeric fields hold `parseInt`'s result; `None` stands for `NaN`. */
  datatype Config = Config(users: Option<int>, concurrent: Option<int>, url: string, delay: Option<int>)

  /** `API_BASE_URL`: the `API_URL` environment variable, or the local default. */
  function ApiBaseUrl(apiUrl: Option<string>): string {
    if Truthy(apiUrl) then apiUrl.value else DefaultApiUrl
  }

  function DefaultConfig(apiUrl: Option<string>): Config {
    Config(Some(DefaultUsers), Some(DefaultConcurrent), ApiBaseUrl(apiUrl), Some(DefaultDelay))
  }

  datatype ParseOutcome = Run(config: Config) | ShowHelp

  // ---- parseArgs ----

  predicate HasValue(args: seq<string>, i: nat) {
    i < |args| && args[i] != ""
  }

  /**
   * The `for` loop of `parseArgs` from index `i`: the three numeric flags take
   * `parseInt` of a truthy next argument, `--url` takes it verbatim, and each
   * skips it; a flag without a truthy value is ignored.
   */
  function ParseFrom(config: Config, args: seq<string>, i: nat): ParseOutcome
    decreases |args| - i
  {
    if i >= |args| then Run(config)
    else
      var arg := args[i];
      if arg == "--users" && HasValue(args, i + 1) then ParseFrom(config.(users := ParseInt(args[i + 1])), args, i + 2)
      else if arg == "--concurrent" && HasValue(args, i + 1) then
        ParseFrom(config.(concurrent := ParseInt(args[i + 1])), args, i + 2)
      else if arg == "--url" && HasValue(args, i + 1) then ParseFrom(config.(url := args[i + 1]), args, i + 2)
      else if arg == "--delay" && HasValue(args, i + 1) then ParseFrom(config.(delay := ParseInt(args[i + 1])), args, i + 2)
      else if arg == "--help" || arg == "-h" then ShowHelp
      else ParseFrom(config, args, i + 1)
  }

  /** `parseArgs()` on `process.argv.slice(2)`, with `API_URL` from the environment. */
  method ParseArgs(args: seq<string>, apiUrl: Option<string>) returns (outcome: ParseOutcome)
    ensures outcome == ParseFrom(DefaultConfig(apiUrl), args, 0)
  {
    var config := DefaultConfig(apiUrl);
    var i := 0;
    while i < |args|
      invariant i <= |args| + 1
      invariant ParseFrom(config, args, i) == ParseFrom(DefaultConfig(apiUrl), args, 0)
      decreases |args| - i
    {
      var help;
      config, i, help := ParseArg(config, args, i);
      if help {
        return ShowHelp;
      }
    }
    return Run(config);
  }

  /**
   * One pass of the `for` body at `args[i]`: the updated configuration and the
   * index of the next argument, or `help` when the script prints its usage.
   */
  method ParseArg(config: Config, args: seq<string>, i: nat) returns (next: Config, j: nat, help: bool)
    requires i < |args|
    ensures help ==> ParseFrom(config, args, i) == ShowHelp
    ensures !help ==> i < j <= i + 2 && ParseFrom(config, args, i) == ParseFrom(next, args, j)
  {
    var arg := args[i];
    next, j, help := config, i + 1, false;
    if arg == "--users" && i + 1 < |args| && args[i + 1] != "" {
      next := config.(users := ParseInt(args[i + 1]));
      j := i + 2;
    } else if arg == "--concurrent" && i + 1 < |args| && args[i + 1] != "" {
      next := config.(concurrent := ParseInt(args[i + 1]));
      j := i + 2;
    } else if arg == "--url" && i + 1 < |args| && args[i + 1] != "" {
      next := config.(url := args[i + 1]);
      j := i + 2;
    } else if arg == "--delay" && i + 1 < |args| && args[i + 1] != "" {
      next := config.(delay := ParseInt(args[i + 1]));
      j := i + 2;
    } else if arg == "--help" || arg == "-h" {
      help := true;
    }
  }

  /** `--users <n>` written in decimal sets the user count to `n` and consumes the number. */
  lemma UsersFlag(config: Config, args: seq<string>, i: nat, n: nat)
    requires i + 1 < |args| && args[i] == "--users" && args[i + 1] == DecimalString(n)
    ensures ParseFrom(config, args, i) == ParseFrom(config.(users := Some(n)), args, i + 2)
  {
    ParseIntDecimalString(n);
  }

  /** `--concurrent <n>` written in decimal sets the batch size to `n` and consumes the number. */
  lemma ConcurrentFlag(config: Config, args: seq<string>, i: nat, n: nat)
    requires i + 1 < |args| && args[i] == "--concurrent" && args[i + 1] == DecimalString(n)
    ensures ParseFrom(config, args, i) == ParseFrom(config.(concurrent := Some(n)), args, i + 2)
  {
    ParseIntDecimalString(n);
  }

  // ---- the test users ----

  /** The deterministic part of `generateUserData(index)`. */
  datatype UserData = UserData(index: nat, name: string, password: string)

  /** `Array.from({length})`: `NaN` and negative lengths give an empty array. */
  function UserCount(users: Option<int>): nat {
    if users.Some? && users.value > 0 then users.value else 0
  }

  function GenerateUserData(index: nat): UserData {
    UserData(index, "Test User " + DecimalString(index), "TestPassword" + DecimalString(index) + "!")
  }

  /** The users of a run, numbered from 1. */
  function GenerateUsers(count: nat): (users: seq<UserData>)
    ensures |users| == count
  {
    seq(count, i requires 0 <= i < count => GenerateUserData(i + 1))
  }

  /** User `k` (from 0) is number `k + 1`, named "Test User k+1", and no two users share a name. */
  lemma GenerateUsersNumbering(count: nat)
    ensures forall k :: 0 <= k < count ==>
      GenerateUsers(count)[k].index == k + 1 && GenerateUsers(count)[k].name == "Test User " + DecimalString(k + 1)
    ensures forall j, k :: 0 <= j < k < count ==> GenerateUsers(count)[j].name != GenerateUsers(count)[k].name
  {
    var users := GenerateUsers(count);
    forall j, k | 0 <= j < k < count ensures users[j].name != users[k].name {
      TestUserNamesDiffer(j + 1, k + 1);
    }
  }

  /** Different user numbers give different names. */
  lemma TestUserNamesDiffer(a: nat, b: nat)
    requires a != b
    ensures GenerateUserData(a).name != GenerateUserData(b).name
  {
    var prefix := "Test User ";
    var na, nb := GenerateUserData(a).name, GenerateUserData(b).name;
    if na == nb {
      assert DecimalString(a) == na[|prefix|..];
      assert DecimalString(b) == nb[|prefix|..];
      ParseIntDecimalString(a);
      ParseIntDecimalString(b);
    }
  }

  // ---- batches ----

  /** `users.slice(i, i + concurrent)` for `i = 0, concurrent, 2 * concurrent, ...`. */
  function Batches<T>(users: seq<T>, concurrent: nat): seq<seq<T>>
    requires concurrent > 0
    decreases |users|
  {
    if users == [] then []
    else if |users| <= concurrent then [users]
    else [users[..concurrent]] + Batches(users[concurrent..], concurrent)
  }

  /**
   * The batches put back together are the users; no batch is empty or larger
   * than `concurrent`, and all but the last hold exactly `concurrent` users.
   */
  lemma BatchesFacts<T>(users: seq<T>, concurrent: nat)
    requires concurrent > 0
    ensures Flatten(Batches(users, concurrent)) == users
    ensures forall k :: 0 <= k < |Batches(users, concurrent)| ==> 0 < |Batches(users, concurrent)[k]| <= concurrent
    ensures forall k :: 0 <= k < |Batches(users, concurrent)| - 1 ==> |Batches(users, concurrent)[k]| == concurrent
  {
    BatchesFlatten(users, concurrent);
    BatchesSizes(users, concurrent);
  }

  lemma {:induction false} BatchesFlatten<T>(users: seq<T>, concurrent: nat)
    requires concurrent > 0
    ensures Flatten(Batches(users, concurrent)) == users
    decreases |users|
  {
    if users != [] && |users| > concurrent {
      BatchesFlatten(users[concurrent..], concurrent);
      FlattenCons(users[..concurrent], Batches(users[concurrent..], concurrent));
      assert users[..concurrent] + users[concurrent..] == users;
    } else if users != [] {
      assert Flatten([users]) == Flatten<T>([]) + users;
    }
  }

  lemma {:induction false} BatchesSizes<T>(users: seq<T>, concurrent: nat)
    requires concurrent > 0
    ensures forall k :: 0 <= k < |Batches(users, concurrent)| ==> 0 < |Batches(users, concurrent)[k]| <= concurrent
    ensures forall k :: 0 <= k < |Batches(users, concurrent)| - 1 ==> |Batches(users, concurrent)[k]| == concurrent
    decreases |users|
  {
    if users != [] && |users| > concurrent {
      var rest := Batches(users[concurrent..], concurrent);
      BatchesSizes(users[concurrent..], concurrent);
      var all := Batches(users, concurrent);
      assert all == [users[..concurrent]] + rest;
      assert forall k :: 1 <= k < |all| ==> all[k] == rest[k - 1];
    }
  }

  /**
   * The batching loop of `main`. With a numeric `concurrent` it must be
   * positive unless there are no users (otherwise `i` never reaches the end);
   * with `NaN`, `i += NaN` ends the loop after one empty slice.
   */
  method MakeBatches<T>(users: seq<T>, concurrent: Option<int>) returns (batches: seq<seq<T>>)
    requires users == [] || concurrent.None? || concurrent.value > 0
    ensures concurrent.None? ==> batches == (if users == [] then [] else [[]])
    ensures concurrent.Some? && concurrent.value > 0 ==> batches == Batches(users, concurrent.value)
    ensures concurrent.Some? && concurrent.value <= 0 ==> batches == []
  {
    batches := [];
    if users == [] {
      return;
    }
    if concurrent.None? {
      batches := [users[0..0]];
      return;
    }
    var step := concurrent.value;
    var i := 0;
    while i < |users|
      invariant 0 <= i
      invariant i >= |users| ==> batches == Batches(users, step)
      invariant i < |users| ==> batches + Batches(users[i..], step) == Batches(users, step)
      decreases |users| - i
    {
      var end := if i + step < |users| then i + step else |users|;
      if end < |users| {
        assert users[i..][..step] == users[i..end];
        assert users[i..][step..] == users[end..];
        assert Batches(users[i..], step) == [users[i..end]] + Batches(users[end..], step);
      } else {
        assert users[i..end] == users[i..];
        assert Batches(users[i..], step) == [users[i..end]];
      }
      batches := batches + [users[i..end]];
      i := i + step;
    }
  }

  // ---- requests and their results ----

  /** What a signup request came back with. */
  datatype Outcome = Responded(status: nat, error: Option<string>) | Threw(message: string)

  /** The object `signupUser` resolves to; `error` is present exactly on failures. */
  datatype SignupResult = SignupResult(success: bool, index: int, status: nat, error: Option<string>)

  /** `signupUser(url, userData, index)` for a request that ended in `outcome`. */
  function SignupUser(outcome: Outcome, index: int): (r: SignupResult)
    ensures r.index == index
    ensures r.success <==> outcome.Responded? && 200 <= outcome.status <= 299
    ensures !r.success <==> r.error.Some?
    ensures outcome.Threw? ==> r == SignupResult(false, index, 0, Some(outcome.message))
  {
    match outcome
    case Responded(status, error) =>
      if 200 <= status <= 299 then SignupResult(true, index, status, None)
      else SignupResult(false, index, status, Some(if Truthy(error) then error.value else "Unknown error"))
    case Threw(message) => SignupResult(false, index, 0, Some(message))
  }

  /** The results of one batch whose first request gets index `first`. */
  function BatchResults(outcomes: seq<Outcome>, first: int): (results: seq<SignupResult>)
    ensures |results| == |outcomes|
    ensures forall k :: 0 <= k < |outcomes| ==> results[k] == SignupUser(outcomes[k], first + k)
  {
    seq(|outcomes|, k requires 0 <= k < |outcomes| => SignupUser(outcomes[k], first + k))
  }

  /** `processBatch` as written: batch `batchNumber` starts at `batchNumber * batch.length`. */
  function AsWrittenFirstIndex(batchNumber: nat, batchLength: nat): nat {
    batchNumber * batchLength
  }

  /** The start the numbering needs: `batchNumber * config.concurrent`. */
  function FirstIndex(batchNumber: nat, concurrent: nat): nat {
    batchNumber * concurrent
  }

  /** `allResults` with the as-written numbering, for batches `batchNumber`, `batchNumber + 1`, ... */
  function AsWrittenResults(outcomes: seq<seq<Outcome>>, batchNumber: nat): seq<SignupResult>
    decreases |outcomes|
  {
    if outcomes == [] then []
    else BatchResults(outcomes[0], AsWrittenFirstIndex(batchNumber, |outcomes[0]|))
           + AsWrittenResults(outcomes[1..], batchNumber + 1)
  }

  /** `allResults` with the corrected numbering. */
  function AllResults(outcomes: seq<seq<Outcome>>, batchNumber: nat, concurrent: nat): (results: seq<SignupResult>)
    decreases |outcomes|
  {
    if outcomes == [] then []
    else BatchResults(outcomes[0], FirstIndex(batchNumber, concurrent)) + AllResults(outcomes[1..], batchNumber + 1, concurrent)
  }

  /**
   * Seven users in batches of five: the second batch has length 2, so its
   * requests are numbered 2 and 3 again, and "User 3" and "User 4" are each
   * reported twice while users 6 and 7 are never named.
   */
  lemma AsWrittenIndexCollision(outcomes: seq<Outcome>)
    requires |outcomes| == 7
    ensures var results := AsWrittenResults(Batches(outcomes, 5), 0);
      |results| == 7 && results[2].index == results[5].index == 2 && results[3].index == results[6].index == 3
  {
    assert Batches(outcomes, 5) == [outcomes[..5], outcomes[5..]] by {
      assert Batches(outcomes[5..], 5) == [outcomes[5..]];
    }
    var tail := [outcomes[5..]];
    assert AsWrittenResults(tail, 1) == BatchResults(outcomes[5..], 2) + AsWrittenResults(tail[1..], 2);
    assert tail[1..] == [];
  }

  /**
   * With the corrected numbering and full batches before the last, result
   * `k` carries index `batchNumber * concurrent + k`: from batch 0 the indices
   * run 0, 1, 2, ..., one per user, and user `index + 1` is the user numbered so.
   */
  lemma {:induction false} AllResultsIndices(outcomes: seq<seq<Outcome>>, batchNumber: nat, concurrent: nat)
    requires forall k :: 0 <= k < |outcomes| - 1 ==> |outcomes[k]| == concurrent
    ensures |AllResults(outcomes, batchNumber, concurrent)| == |Flatten(outcomes)|
    ensures forall k :: 0 <= k < |Flatten(outcomes)| ==>
      AllResults(outcomes, batchNumber, concurrent)[k].index == batchNumber * concurrent + k
    decreases |outcomes|
  {
    if outcomes != [] {
      var rest := outcomes[1..];
      assert outcomes == [outcomes[0]] + rest;
      FlattenCons(outcomes[0], rest);
      AllResultsIndices(rest, batchNumber + 1, concurrent);
      var head := BatchResults(outcomes[0], FirstIndex(batchNumber, concurrent));
      var tailResults := AllResults(rest, batchNumber + 1, concurrent);
      var all := AllResults(outcomes, batchNumber, concurrent);
      assert all == head + tailResults;
      forall k | 0 <= k < |Flatten(outcomes)| ensures all[k].index == batchNumber * concurrent + k {
        if k >= |head| {
          assert |outcomes[0]| == concurrent;
          assert all[k] == tailResults[k - |head|];
          assert (batchNumber + 1) * concurrent == batchNumber * concurrent + concurrent;
        }
      }
    }
  }

  /**
   * The batch loop of `main`: each batch's results are pushed onto
   * `allResults` in turn, numbered with the corrected start index.
   */
  method CollectResults(outcomes: seq<seq<Outcome>>, concurrent: nat) returns (allResults: seq<SignupResult>)
    ensures allResults == AllResults(outcomes, 0, concurrent)
  {
    allResults := [];
    for i := 0 to |outcomes|
      invariant allResults + AllResults(outcomes[i..], i, concurrent) == AllResults(outcomes, 0, concurrent)
    {
      var batchResults := BatchResults(outcomes[i], FirstIndex(i, concurrent));
      assert outcomes[i..][1..] == outcomes[i + 1..];
      allResults := allResults + batchResults;
    }
  }

  // ---- the summary ----

  function Successful(results: seq<SignupResult>): (r: seq<SignupResult>)
    ensures forall x :: x in r <==> x in results && x.success
  {
    if results == [] then []
    else
      var last := results[|results| - 1];
      Successful(results[..|results| - 1]) + (if last.success then [last] else [])
  }

  function Failed(results: seq<SignupResult>): (r: seq<SignupResult>)
    ensures forall x :: x in r <==> x in results && !x.success
  {
    if results == [] then []
    else
      var last := results[|results| - 1];
      Failed(results[..|results| - 1]) + (if !last.success then [last] else [])
  }

  /** `successful` and `failed` split `allResults`: every result lands in exactly one of them. */
  lemma {:induction false} SuccessfulFailedPartition(results: seq<SignupResult>)
    ensures multiset(Successful(results)) + multiset(Failed(results)) == multiset(results)
    ensures |Successful(results)| + |Failed(results)| == |results|
  {
    if results != [] {
      var init := results[..|results| - 1];
      var last := results[|results| - 1];
      SuccessfulFailedPartition(init);
      PartitionStep(results);
    }
  }

  /** The filters applied to a non-empty list: the last result goes to exactly one side. */
  lemma PartitionStep(results: seq<SignupResult>)
    requires results != []
    ensures var init, last := results[..|results| - 1], results[|results| - 1];
      && multiset(Successful(results)) + multiset(Failed(results))
           == multiset(Successful(init)) + multiset(Failed(init)) + multiset{last}
      && |Successful(results)| + |Failed(results)| == |Successful(init)| + |Failed(init)| + 1
      && multiset(results) == multiset(init) + multiset{last}
  {
    var init, last := results[..|results| - 1], results[|results| - 1];
    assert results == init + [last];
    if last.success {
      assert Successful(results) == Successful(init) + [last];
      assert Failed(results) == Failed(init);
    } else {
      assert Successful(results) == Successful(init);
      assert Failed(results) == Failed(init) + [last];
    }
  }

  /** `result.error || \`Status ${result.status}\``. */
  function ErrorKey(r: SignupResult): string {
    if Truthy(r.error) then r.error.value else "Status " + DecimalString(r.status)
  }

  function ErrorKeys(failed: seq<SignupResult>): (keys: seq<string>)
    ensures |keys| == |failed|
    ensures forall k :: 0 <= k < |failed| ==> keys[k] == ErrorKey(failed[k])
  {
    seq(|failed|, k requires 0 <= k < |failed| => ErrorKey(failed[k]))
  }

  /** The keys in first-seen order: the order `Object.entries(errorGroups)` lists them in. */
  function DistinctKeys(keys: seq<string>): (ds: seq<string>)
    ensures forall x :: x in ds <==> x in keys
    ensures forall i, j :: 0 <= i < j < |ds| ==> ds[i] != ds[j]
  {
    if keys == [] then []
    else
      var last := keys[|keys| - 1];
      var init := DistinctKeys(keys[..|keys| - 1]);
      assert forall x :: x in keys <==> x in keys[..|keys| - 1] || x == last;
      if last in init then init else init + [last]
  }

  /** The value of `errorGroups[key]`, `undefined` counting as 0. */
  function CountOf(groups: map<string, nat>, key: string): nat {
    if key in groups then groups[key] else 0
  }

  /** The counts of `groups` added up over the keys `ds`. */
  function SumOver(groups: map<string, nat>, ds: seq<string>): nat {
    if ds == [] then 0 else SumOver(groups, ds[..|ds| - 1]) + CountOf(groups, ds[|ds| - 1])
  }

  /** `errorGroups` after the `forEach` over failures with keys `keys`. */
  function Grouped(keys: seq<string>): map<string, nat> {
    if keys == [] then map[]
    else
      var groups := Grouped(keys[..|keys| - 1]);
      var key := keys[|keys| - 1];
      groups[key := CountOf(groups, key) + 1]
  }

  /** Each key's count is how often it occurs, and the keys are exactly the keys that occur. */
  lemma {:induction false} GroupedCounts(keys: seq<string>)
    ensures forall key :: CountOf(Grouped(keys), key) == multiset(keys)[key]
    ensures forall key :: key in Grouped(keys) <==> key in keys
  {
    if keys != [] {
      var init := keys[..|keys| - 1];
      GroupedCounts(init);
      assert keys == init + [keys[|keys| - 1]];
    }
  }

  lemma {:induction false} SumOverUpdateOther(groups: map<string, nat>, ds: seq<string>, key: string, n: nat)
    requires key !in ds
    ensures SumOver(groups[key := n], ds) == SumOver(groups, ds)
  {
    if ds != [] {
      SumOverUpdateOther(groups, ds[..|ds| - 1], key, n);
    }
  }

  lemma {:induction false} SumOverBump(groups: map<string, nat>, ds: seq<string>, key: string)
    requires key in ds
    requires forall i, j :: 0 <= i < j < |ds| ==> ds[i] != ds[j]
    ensures SumOver(groups[key := CountOf(groups, key) + 1], ds) == SumOver(groups, ds) + 1
  {
    var init := ds[..|ds| - 1];
    if ds[|ds| - 1] == key {
      assert key !in init;
      SumOverUpdateOther(groups, init, key, CountOf(groups, key) + 1);
    } else {
      assert key in init;
      SumOverBump(groups, init, key);
    }
  }

  /** The error breakdown adds up to the number of failed requests. */
  lemma {:induction false} GroupedSum(keys: seq<string>)
    ensures SumOver(Grouped(keys), DistinctKeys(keys)) == |keys|
  {
    if keys != [] {
      var init := keys[..|keys| - 1];
      var key := keys[|keys| - 1];
      GroupedSum(init);
      GroupedCounts(init);
      var ds := DistinctKeys(init);
      if key in ds {
        SumOverBump(Grouped(init), ds, key);
      } else {
        SumOverUpdateOther(Grouped(init), ds, key, 1);
        assert (ds + [key])[..|ds|] == ds;
      }
    }
  }

  /** The `forEach` that fills `errorGroups` in place. */
  method GroupErrors(failed: seq<SignupResult>) returns (errorGroups: map<string, nat>)
    ensures errorGroups == Grouped(ErrorKeys(failed))
  {
    ghost var keys := ErrorKeys(failed);
    errorGroups := map[];
    for i := 0 to |failed|
      invariant errorGroups == Grouped(keys[..i])
    {
      var key := ErrorKey(failed[i]);
      GroupedNext(keys, i);
      errorGroups := errorGroups[key := (if key in errorGroups then errorGroups[key] else 0) + 1];
    }
    assert keys[..|failed|] == keys;
  }

  /** One more failure bumps its own key's count. */
  lemma GroupedNext(keys: seq<string>, i: nat)
    requires i < |keys|
    ensures Grouped(keys[..i + 1]) == Grouped(keys[..i])[keys[i] := CountOf(Grouped(keys[..i]), keys[i]) + 1]
  {
    assert keys[..i + 1][..i] == keys[..i];
  }

  /** `process.exit(failed.length > 0 ? 1 : 0)`. */
  function ExitCode(results: seq<SignupResult>): (code: int)
    ensures code == 1 <==> exists r :: r in results && !r.success
    ensures code == 0 <==> forall r :: r in results ==> r.success
  {
    var failed := Failed(results);
    if |failed| > 0 then assert failed[0] in failed; 1 else 0
  }
}
