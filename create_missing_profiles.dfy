/**
 * The `create_missing_profiles` management command: walk the users, collect
 * those that have no profile, then create one profile for each of them and
 * report what was done. Users are never modified; existing profiles are
 * never touched. The report lines written to stdout are kept as records.
 */
module CreateMissingProfiles {

  datatype User = User(id: nat, username: string)

  /** A Profile row, one-to-one with its user. */
  datatype Profile = Profile(user: nat)

  /** The lines the command writes, in order. */
  datatype Line =
    | Checking(total: nat)         // "Checking {total_users} users for missing profiles..."
    | Found(count: nat)            // "Found {n} users without profiles. Creating profiles..."
    | Created(username: string)    // "Created profile for user: {username}"
    | Succeeded(count: nat)        // "Successfully created {n} profiles."
    | NoActionNeeded               // "All users have profiles. No action needed."

  /** The users, in query order, that have no profile (`not hasattr(user, 'profile')`). */
  function WithoutProfile(users: seq<User>, profiles: map<nat, Profile>): (r: seq<User>)
    ensures |r| <= |users|
    ensures forall u :: u in r <==> u in users && u.id !in profiles
  {
    if users == [] then []
    else WithoutProfile(users[..|users| - 1], profiles)
         + (if users[|users| - 1].id !in profiles then [users[|users| - 1]] else [])
  }

  ghost predicate DistinctIds(users: seq<User>)
  {
    forall i, j :: 0 <= i < j < |users| ==> users[i].id != users[j].id
  }

  /** The ids of a list of users. */
  function Ids(users: seq<User>): (r: set<nat>)
    ensures forall u :: u in users ==> u.id in r
  {
    if users == [] then {} else Ids(users[..|users| - 1]) + {users[|users| - 1].id}
  }

  /** Every id in the set is the id of one of the users. */
  lemma {:induction false} IdsOnlyOfUsers(users: seq<User>, k: nat)
    requires k in Ids(users)
    ensures exists u :: u in users && u.id == k
  {
    var init := users[..|users| - 1];
    var last := users[|users| - 1];
    if k != last.id {
      IdsOnlyOfUsers(init, k);
      var u :| u in init && u.id == k;
      assert u in users;
    }
  }

  /** Filtering a user list with distinct ids gives a list with distinct ids. */
  lemma {:induction false} WithoutProfileDistinct(users: seq<User>, profiles: map<nat, Profile>)
    requires DistinctIds(users)
    ensures DistinctIds(WithoutProfile(users, profiles))
  {
    if users != [] {
      var init := users[..|users| - 1];
      var last := users[|users| - 1];
      assert DistinctIds(init);
      WithoutProfileDistinct(init, profiles);
      var r := WithoutProfile(init, profiles);
      forall u | u in r
        ensures u.id != last.id
      {
        var k :| 0 <= k < |init| && init[k] == u;
      }
      var r' := WithoutProfile(users, profiles);
      forall i, j | 0 <= i < j < |r'|
        ensures r'[i].id != r'[j].id
      {
        if j == |r| {
          assert r'[i] in r;
        }
      }
    }
  }

  /** A list of users with distinct ids has as many ids as users. */
  lemma {:induction false} IdsCount(users: seq<User>)
    requires DistinctIds(users)
    ensures |Ids(users)| == |users|
  {
    if users != [] {
      var init := users[..|users| - 1];
      var last := users[|users| - 1];
      assert DistinctIds(init);
      IdsCount(init);
      forall u | u in init
        ensures u.id != last.id
      {
        var k :| 0 <= k < |init| && init[k] == u;
        assert users[k] == u;
      }
      forall k | k in Ids(init)
        ensures k != last.id
      {
        IdsOnlyOfUsers(init, k);
      }
    }
  }

  /** Once every user has a profile, there is nobody left to collect. */
  lemma {:induction false} NothingMissingWhenComplete(users: seq<User>, profiles: map<nat, Profile>)
    requires forall u :: u in users ==> u.id in profiles
    ensures WithoutProfile(users, profiles) == []
  {
    if users != [] {
      NothingMissingWhenComplete(users[..|users| - 1], profiles);
    }
  }

  /**
   * If the profiles afterwards are those before plus one for each user that
   * lacked one, then every user has a profile and exactly as many profiles
   * were added as users lacked one.
   */
  lemma NewProfilesAccounting(users: seq<User>, before: map<nat, Profile>, after: map<nat, Profile>)
    requires DistinctIds(users)
    requires after.Keys == before.Keys + Ids(WithoutProfile(users, before))
    ensures forall u :: u in users ==> u.id in after
    ensures |after.Keys - before.Keys| == |WithoutProfile(users, before)|
  {
    var missing := WithoutProfile(users, before);
    WithoutProfileDistinct(users, before);
    IdsCount(missing);
    forall k | k in Ids(missing)
      ensures k !in before
    {
      IdsOnlyOfUsers(missing, k);
      var u :| u in missing && u.id == k;
    }
    assert after.Keys - before.Keys == Ids(missing);
    forall u | u in users
      ensures u.id in after
    {
      if u.id !in before {
        assert u in missing;
      }
    }
  }

  /** Looking at one more user appends that user exactly when it has no profile. */
  lemma WithoutProfileStep(users: seq<User>, profiles: map<nat, Profile>, i: nat)
    requires i < |users|
    ensures WithoutProfile(users[..i + 1], profiles)
      == WithoutProfile(users[..i], profiles) + (if users[i].id !in profiles then [users[i]] else [])
  {
    assert users[..i + 1][..i] == users[..i];
  }

  /** Growing a prefix by one user adds that user's id and report line. */
  lemma PrefixStep(missing: seq<User>, j: nat)
    requires j < |missing|
    ensures Ids(missing[..j + 1]) == Ids(missing[..j]) + {missing[j].id}
    ensures CreatedLines(missing[..j + 1]) == CreatedLines(missing[..j]) + [Created(missing[j].username)]
  {
    assert missing[..j + 1][..j] == missing[..j];
  }

  function CreatedLines(missing: seq<User>): (lines: seq<Line>)
    ensures |lines| == |missing|
    ensures forall i :: 0 <= i < |missing| ==> lines[i] == Created(missing[i].username)
  {
    if missing == [] then [] else CreatedLines(missing[..|missing| - 1]) + [Created(missing[|missing| - 1].username)]
  }

  /** The whole report for `total` users of whom `missing` lacked a profile. */
  function Report(total: nat, missing: seq<User>): (lines: seq<Line>)
    ensures |lines| >= 2 && lines[0] == Checking(total)
    ensures missing == [] <==> lines[1] == NoActionNeeded
    ensures missing != [] ==>
      && |lines| == |missing| + 3
      && lines[1] == Found(|missing|)
      && lines[2..|lines| - 1] == CreatedLines(missing)
      && lines[|lines| - 1] == Succeeded(|missing|)
  {
    if missing == [] then [Checking(total), NoActionNeeded]
    else [Checking(total), Found(|missing|)] + CreatedLines(missing) + [Succeeded(|missing|)]
  }

  /** The lines written when someone lacked a profile, in the order `handle` writes them. */
  lemma ReportWhenMissing(total: nat, missing: seq<User>, created: seq<Line>)
    requires missing != [] && created == CreatedLines(missing)
    ensures [Checking(total)] + [Found(|missing|)] + created + [Succeeded(|missing|)] == Report(total, missing)
  {
    assert [Checking(total)] + [Found(|missing|)] == [Checking(total), Found(|missing|)];
  }

  /** Every profile is stored under its own user's id. */
  ghost predicate SelfKeyed(profiles: map<nat, Profile>)
  {
    forall k :: k in profiles ==> profiles[k].user == k
  }

  /** `after` still holds every profile of `before`, unchanged. */
  ghost predicate Keeps(after: map<nat, Profile>, before: map<nat, Profile>)
  {
    forall k :: k in before ==> k in after && after[k] == before[k]
  }

  /**
   * Creating the profile of the next collected user, who had none, keeps
   * every earlier profile and adds exactly that user's id.
   */
  lemma CreateStep(missing: seq<User>, j: nat, profiles: map<nat, Profile>, before: map<nat, Profile>)
    requires j < |missing| && forall u :: u in missing ==> u.id !in before
    requires profiles.Keys == before.Keys + Ids(missing[..j])
    requires SelfKeyed(profiles) && Keeps(profiles, before)
    ensures var after := profiles[missing[j].id := Profile(missing[j].id)];
      && after.Keys == before.Keys + Ids(missing[..j + 1])
      && SelfKeyed(after) && Keeps(after, before)
      && CreatedLines(missing[..j + 1]) == CreatedLines(missing[..j]) + [Created(missing[j].username)]
  {
    PrefixStep(missing, j);
    assert missing[j] in missing;
  }

  class Accounts {
    var users: seq<User>               // User.objects.all(), in query order
    var profiles: map<nat, Profile>    // the Profile table, keyed by its user's id

    ghost predicate Valid()
      reads this
    {
      DistinctIds(users) && SelfKeyed(profiles)
    }

    /** The user and profile tables as they stand when the command starts. */
    constructor (users: seq<User>, profiles: map<nat, Profile>)
      requires DistinctIds(users) && SelfKeyed(profiles)
      ensures Valid() && this.users == users && this.profiles == profiles
    {
      this.users, this.profiles := users, profiles;
    }

    /** The first loop of `handle`: collect, in query order, the users without a profile. */
    method FindUsersWithoutProfiles() returns (missing: seq<User>)
      ensures missing == WithoutProfile(users, profiles)
    {
      missing := [];
      var i := 0;
      while i < |users|
        invariant 0 <= i <= |users|
        invariant missing == WithoutProfile(users[..i], profiles)
      {
        WithoutProfileStep(users, profiles, i);
        if users[i].id !in profiles {
          missing := missing + [users[i]];
        }
        i := i + 1;
      }
      assert users[..|users|] == users;
    }

    /** The second loop of `handle`: one new profile per collected user, with its report line. */
    method CreateProfiles(missing: seq<User>) returns (lines: seq<Line>)
      requires Valid()
      requires forall u :: u in missing ==> u.id !in profiles
      modifies this`profiles
      ensures Valid()
      ensures profiles.Keys == old(profiles).Keys + Ids(missing)
      ensures Keeps(profiles, old(profiles))
      ensures lines == CreatedLines(missing)
    {
      lines := [];
      var j := 0;
      while j < |missing|
        invariant 0 <= j <= |missing|
        invariant profiles.Keys == old(profiles).Keys + Ids(missing[..j])
        invariant Keeps(profiles, old(profiles)) && SelfKeyed(profiles)
        invariant lines == CreatedLines(missing[..j])
      {
        CreateStep(missing, j, profiles, old(profiles));
        profiles := profiles[missing[j].id := Profile(missing[j].id)];
        lines := lines + [Created(missing[j].username)];
        j := j + 1;
      }
      assert missing[..|missing|] == missing;
    }

    /**
     * `Command.handle`: afterwards every user has a profile; the new ones
     * belong exactly to the users that lacked one, one each; existing
     * profiles and the users are left as they were.
     */
    method Handle() returns (out: seq<Line>)
      requires Valid()
      modifies this`profiles
      ensures Valid()
      ensures forall u :: u in users ==> u.id in profiles
      ensures forall k :: k in old(profiles) ==> k in profiles && profiles[k] == old(profiles)[k]
      ensures profiles.Keys == old(profiles).Keys + Ids(WithoutProfile(users, old(profiles)))
      ensures |profiles.Keys - old(profiles).Keys| == |WithoutProfile(users, old(profiles))|
      ensures out == Report(|users|, WithoutProfile(users, old(profiles)))
    {
      var total := |users|;
      out := [Checking(total)];
      var missing := FindUsersWithoutProfiles();
      if missing != [] {
        out := out + [Found(|missing|)];
        var created := CreateProfiles(missing);
        out := out + created + [Succeeded(|missing|)];
        ReportWhenMissing(total, missing, created);
      } else {
        out := out + [NoActionNeeded];
        assert out == Report(total, missing);
        assert Ids(missing) == {};
      }
      NewProfilesAccounting(users, old(profiles), profiles);
    }
  }

  /** Running the command twice: the second run creates nothing and takes the "no action needed" branch. */
  method HandleTwice(accounts: Accounts) returns (first: seq<Line>, second: seq<Line>, ghost afterFirst: map<nat, Profile>)
    requires accounts.Valid()
    modifies accounts
    ensures accounts.Valid() && accounts.users == old(accounts.users)
    ensures afterFirst.Keys == old(accounts.profiles).Keys + Ids(WithoutProfile(accounts.users, old(accounts.profiles)))
    ensures forall u :: u in accounts.users ==> u.id in afterFirst
    ensures first == Report(|accounts.users|, WithoutProfile(accounts.users, old(accounts.profiles)))
    ensures accounts.profiles == afterFirst
    ensures second == [Checking(|accounts.users|), NoActionNeeded]
  {
    first := accounts.Handle();
    afterFirst := accounts.profiles;
    NothingMissingWhenComplete(accounts.users, afterFirst);
    second := accounts.Handle();
  }
}
