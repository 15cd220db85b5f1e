/** Profiles and the follow relation between users. */
module Profiles {
  import opened Common
  import opened Users

  /** A row of the profile table as the username query returns it, with the
      id of the user it is joined to. */
  datatype ProfileRow = ProfileRow(id: int, userId: int, bio: string, image: string)

  datatype ProfileResponse = ProfileResponse(id: int, username: string, bio: string,
                                             image: string, following: bool)

  /** The profile lookup by username: profile table joined with users. */
  type ProfileIndex = map<string, ProfileRow>

  /** JavaScript truthiness of an optional user id: present and not 0. */
  predicate TruthyId(id: Option<int>)
  {
    id.Some? && id.value != 0
  }

  /** `getProfile`: NotFound when no profile has that username; `following`
      is false for a falsy or unknown current user, and otherwise tells
      whether the profile's user is in the current user's `following` list. */
  function GetProfile(profiles: ProfileIndex, t: Table, username: string, currentUserId: Option<int>)
    : (r: Result<ProfileResponse>)
    ensures r.Err? <==> username !in profiles
    ensures r.Err? ==> r.error == NotFound("Profile not found")
    ensures r.Ok? ==> && r.value.id == profiles[username].id
                      && r.value.username == username
                      && r.value.bio == profiles[username].bio
                      && r.value.image == profiles[username].image
    ensures r.Ok? && (!TruthyId(currentUserId) || currentUserId.value !in t.rows) ==> !r.value.following
    ensures r.Ok? && TruthyId(currentUserId) && currentUserId.value in t.rows ==>
              (r.value.following <==> profiles[username].userId in t.rows[currentUserId.value].following)
  {
    if username !in profiles then Err(NotFound("Profile not found"))
    else
      var profile := profiles[username];
      var isFollowing :=
        if TruthyId(currentUserId) && currentUserId.value in t.rows then
          profile.userId in t.rows[currentUserId.value].following
        else false;
      Ok(ProfileResponse(profile.id, username, profile.bio, profile.image, isFollowing))
  }

  /** The lookups `followUser` and `unfollowUser` start with, in their order:
      the target by username first, then the current user by id. On success,
      the target's id. */
  function FindPair(t: Table, username: string, currentUserId: int): (r: Result<int>)
    requires Valid(t)
    ensures !Taken(t, ByUsername(username)) ==> r == Err(NotFound("Target user not found"))
    ensures Taken(t, ByUsername(username)) && currentUserId !in t.rows ==> r == Err(NotFound("Current user not found"))
    ensures r.Ok? <==> Taken(t, ByUsername(username)) && currentUserId in t.rows
    ensures r.Ok? ==> r.value in t.rows && t.rows[r.value].username == username
                      && forall k :: k in t.rows && t.rows[k].username == username ==> r.value <= k
  {
    var currentUser := if currentUserId in t.rows then Some(t.rows[currentUserId]) else None;
    var targetUser := FindBy(t, ByUsername(username));
    if targetUser.None? then Err(NotFound("Target user not found"))
    else if currentUser.None? then Err(NotFound("Current user not found"))
    else Ok(targetUser.value.id)
  }

  /** No id occurs twice. */
  predicate NoDuplicates(s: seq<int>)
  {
    forall i, j :: 0 <= i < j < |s| ==> s[i] != s[j]
  }

  /** `following.filter(user => user.id !== target)`. */
  function Without(s: seq<int>, target: int): (r: seq<int>)
    ensures target !in r
    ensures forall y :: y != target ==> (y in r <==> y in s)
    ensures |r| <= |s|
  {
    if s == [] then []
    else if s[0] == target then Without(s[1..], target)
    else [s[0]] + Without(s[1..], target)
  }

  /** Filtering distributes over concatenation, so the kept ids stay in their order. */
  lemma {:induction false} WithoutConcat(a: seq<int>, b: seq<int>, target: int)
    ensures Without(a + b, target) == Without(a, target) + Without(b, target)
  {
    if a != [] {
      assert (a + b)[0] == a[0] && (a + b)[1..] == a[1..] + b;
      WithoutConcat(a[1..], b, target);
      var x, y := Without(a[1..], target), Without(b, target);
      if a[0] == target {
        assert Without(a + b, target) == Without(a[1..] + b, target);
        assert Without(a, target) == x;
      } else {
        assert Without(a + b, target) == [a[0]] + Without(a[1..] + b, target);
        assert Without(a, target) == [a[0]] + x;
        assert [a[0]] + (x + y) == ([a[0]] + x) + y;
      }
    } else {
      assert a + b == b;
    }
  }

  /** Filtering out an id that does not occur changes nothing. */
  lemma {:induction false} WithoutAbsent(s: seq<int>, target: int)
    requires target !in s
    ensures Without(s, target) == s
  {
    if s != [] {
      WithoutAbsent(s[1..], target);
      assert [s[0]] + s[1..] == s;
    }
  }

  /** Exactly the occurrences of the target are removed. */
  lemma {:induction false} WithoutCounts(s: seq<int>, target: int)
    ensures multiset(Without(s, target)) == multiset(s)[target := 0]
  {
    if s != [] {
      WithoutCounts(s[1..], target);
      assert s == [s[0]] + s[1..];
      assert multiset(s) == multiset([s[0]]) + multiset(s[1..]);
    }
  }

  /** The `following` list after `followUser`: one entry appended, or
      Conflict when the target is already followed. */
  function FollowList(following: seq<int>, target: int): (r: Result<seq<int>>)
    ensures r.Err? <==> target in following
    ensures r.Err? ==> r.error == Conflict("Already following this user")
    ensures r.Ok? ==> |r.value| == |following| + 1 && r.value[..|following|] == following
                      && r.value[|following|] == target
    ensures r.Ok? && NoDuplicates(following) ==> NoDuplicates(r.value)
  {
    if target in following then Err(Conflict("Already following this user"))
    else Ok(following + [target])
  }

  /** The `following` list after `unfollowUser`: every entry for the target
      removed and the rest kept in order, or Conflict when it is not followed. */
  function UnfollowList(following: seq<int>, target: int): (r: Result<seq<int>>)
    ensures r.Err? <==> target !in following
    ensures r.Err? ==> r.error == Conflict("Not following this user")
    ensures r.Ok? ==> target !in r.value && forall y :: y != target ==> (y in r.value <==> y in following)
    ensures r.Ok? ==> multiset(r.value) == multiset(following)[target := 0]
  {
    if target !in following then Err(Conflict("Not following this user"))
    else
      WithoutCounts(following, target);
      Ok(Without(following, target))
  }

  /** Following a user who was not followed and then unfollowing them gives
      back the original list. */
  lemma FollowThenUnfollow(following: seq<int>, target: int)
    requires target !in following
    ensures FollowList(following, target).Ok?
    ensures UnfollowList(FollowList(following, target).value, target) == Ok(following)
  {
    WithoutConcat(following, [target], target);
    WithoutAbsent(following, target);
    assert Without([target], target) == [];
    assert following + [] == following;
  }

  /** Unfollowing a user on a duplicate-free list and then following them
      again moves that user to the end of the list. */
  lemma UnfollowThenFollow(following: seq<int>, target: int, i: nat)
    requires NoDuplicates(following)
    requires i < |following| && following[i] == target
    ensures UnfollowList(following, target).Ok?
    ensures FollowList(UnfollowList(following, target).value, target)
            == Ok(following[..i] + following[i + 1..] + [target])
  {
    assert following == following[..i] + [target] + following[i + 1..];
    WithoutConcat(following[..i] + [target], following[i + 1..], target);
    WithoutConcat(following[..i], [target], target);
    WithoutAbsent(following[..i], target);
    WithoutAbsent(following[i + 1..], target);
    assert Without([target], target) == [];
    assert Without(following, target) == following[..i] + following[i + 1..];
  }

  /** The profile stored under `username` belongs to the user the users table
      finds under that username. */
  predicate ProfileOwnedByUser(profiles: ProfileIndex, t: Table, username: string)
    requires Valid(t)
  {
    username in profiles ==>
      var target := FindBy(t, ByUsername(username));
      target.Some? && profiles[username].userId == target.value.id
  }

  /** The table with one user's `following` list replaced (the `save`). */
  function WithFollowing(t: Table, id: int, following: seq<int>): Table
    requires id in t.rows
  {
    t.(rows := t.rows[id := t.rows[id].(following := following)])
  }

  class ProfilesService {
    const users: UsersService
    const profiles: ProfileIndex

    constructor(users: UsersService, profiles: ProfileIndex)
      ensures this.users == users && this.profiles == profiles
    {
      this.users := users;
      this.profiles := profiles;
    }

    /** `followUser`: the lookups in `FindPair`'s order, Conflict when already
        following, otherwise append the target, save, and answer with
        `getProfile` on the saved state. */
    method FollowUser(username: string, currentUserId: int) returns (r: Result<ProfileResponse>)
      requires Valid(users.table)
      modifies users
      ensures Valid(users.table)
      ensures FindPair(old(users.table), username, currentUserId).Err? ==>
                r == Err(FindPair(old(users.table), username, currentUserId).error)
                && users.table == old(users.table)
      ensures FindPair(old(users.table), username, currentUserId).Ok? ==>
                var target := FindPair(old(users.table), username, currentUserId).value;
                var list := FollowList(old(users.table).rows[currentUserId].following, target);
                && (list.Err? ==> r == Err(list.error) && users.table == old(users.table))
                && (list.Ok? ==> users.table == WithFollowing(old(users.table), currentUserId, list.value)
                                 && r == GetProfile(profiles, users.table, username, Some(currentUserId)))
      ensures r.Ok? && ProfileOwnedByUser(profiles, old(users.table), username) ==> r.value.following
    {
      var pair := FindPair(users.table, username, currentUserId);
      if pair.Err? {
        return Err(pair.error);
      }
      var currentUser := users.table.rows[currentUserId];
      var list := FollowList(currentUser.following, pair.value);
      if list.Err? {
        return Err(list.error);
      }
      users.table := WithFollowing(users.table, currentUserId, list.value);
      r := GetProfile(profiles, users.table, username, Some(currentUserId));
    }

    /** `unfollowUser`: the same lookups, Conflict when not following,
        otherwise filter the target out, save, and answer with `getProfile`. */
    method UnfollowUser(username: string, currentUserId: int) returns (r: Result<ProfileResponse>)
      requires Valid(users.table)
      modifies users
      ensures Valid(users.table)
      ensures FindPair(old(users.table), username, currentUserId).Err? ==>
                r == Err(FindPair(old(users.table), username, currentUserId).error)
                && users.table == old(users.table)
      ensures FindPair(old(users.table), username, currentUserId).Ok? ==>
                var target := FindPair(old(users.table), username, currentUserId).value;
                var list := UnfollowList(old(users.table).rows[currentUserId].following, target);
                && (list.Err? ==> r == Err(list.error) && users.table == old(users.table))
                && (list.Ok? ==> users.table == WithFollowing(old(users.table), currentUserId, list.value)
                                 && r == GetProfile(profiles, users.table, username, Some(currentUserId)))
      ensures r.Ok? && ProfileOwnedByUser(profiles, old(users.table), username) ==> !r.value.following
    {
      var pair := FindPair(users.table, username, currentUserId);
      if pair.Err? {
        return Err(pair.error);
      }
      var currentUser := users.table.rows[currentUserId];
      var list := UnfollowList(currentUser.following, pair.value);
      if list.Err? {
        return Err(list.error);
      }
      users.table := WithFollowing(users.table, currentUserId, list.value);
      r := GetProfile(profiles, users.table, username, Some(currentUserId));
    }
  }
}
