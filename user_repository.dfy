/** The user repository's lookup by userId, over the stored records in insertion
    order. It behaves like a single-result derived query: no row, exactly one row,
    or an error when several rows share the userId. */
module UserRepository {
  import opened Domain

  datatype Lookup = Absent | Found(user: SiteUser) | NotUnique

  /** Some record carries `userId`. */
  ghost predicate Registered(users: seq<SiteUser>, userId: string)
  {
    exists i :: 0 <= i < |users| && users[i].userId == userId
  }

  /** Two different records carry `userId`. */
  ghost predicate Duplicated(users: seq<SiteUser>, userId: string)
  {
    exists i, j :: 0 <= i < j < |users| && users[i].userId == userId && users[j].userId == userId
  }

  /** Record `i` is the one and only record carrying `userId`. */
  ghost predicate OnlyRecordAt(users: seq<SiteUser>, userId: string, i: int)
  {
    && 0 <= i < |users|
    && users[i].userId == userId
    && forall j :: 0 <= j < |users| && users[j].userId == userId ==> j == i
  }

  /** findByUserId as a single-result query. */
  function FindByUserId(users: seq<SiteUser>, userId: string): (r: Lookup)
    ensures users == [] ==> r.Absent?
    ensures r.Found? ==> r.user in users && r.user.userId == userId
  {
    if users == [] then Absent
    else
      var rest := FindByUserId(users[1..], userId);
      if users[0].userId != userId then rest
      else if rest.Absent? then Found(users[0])
      else NotUnique
  }

  /** The lookup reports absence exactly when no record has the userId, an error
      exactly when two records have it, and otherwise the one record that has it. */
  lemma {:induction false} FindByUserIdSpec(users: seq<SiteUser>, userId: string)
    ensures FindByUserId(users, userId).Absent? <==> !Registered(users, userId)
    ensures FindByUserId(users, userId).NotUnique? <==> Duplicated(users, userId)
    ensures FindByUserId(users, userId).Found? ==>
      exists i :: OnlyRecordAt(users, userId, i) && FindByUserId(users, userId).user == users[i]
  {
    if users != [] {
      var tail := users[1..];
      FindByUserIdSpec(tail, userId);
      assert forall k :: 0 <= k < |tail| ==> tail[k] == users[k + 1];
      if Registered(tail, userId) {
        var k :| 0 <= k < |tail| && tail[k].userId == userId;
        assert users[k + 1].userId == userId;
      }
      if Duplicated(tail, userId) {
        var k, l :| 0 <= k < l < |tail| && tail[k].userId == userId && tail[l].userId == userId;
        assert users[k + 1].userId == userId && users[l + 1].userId == userId;
      }
      if Registered(users, userId) {
        var k :| 0 <= k < |users| && users[k].userId == userId;
        if k > 0 { assert tail[k - 1].userId == userId; }
      }
      if Duplicated(users, userId) {
        var k, l :| 0 <= k < l < |users| && users[k].userId == userId && users[l].userId == userId;
        assert tail[l - 1].userId == userId;
        if k > 0 { assert tail[k - 1].userId == userId; }
      }
      var r := FindByUserId(users, userId);
      if r.Found? {
        if users[0].userId == userId {
          assert OnlyRecordAt(users, userId, 0);
        } else {
          var k :| OnlyRecordAt(tail, userId, k) && r.user == tail[k];
          assert OnlyRecordAt(users, userId, k + 1) by {
            forall j | 0 <= j < |users| && users[j].userId == userId ensures j == k + 1 {
              if j > 0 { assert tail[j - 1].userId == userId; }
            }
          }
        }
      }
    }
  }

  /** Saving one more record: lookups of other userIds are unaffected; the saved
      userId is found if it was new and becomes a lookup error if it was already
      stored. */
  lemma {:induction false} FindAfterSave(users: seq<SiteUser>, u: SiteUser, userId: string)
    ensures FindByUserId(users + [u], userId) ==
      if u.userId != userId then FindByUserId(users, userId)
      else if FindByUserId(users, userId).Absent? then Found(u)
      else NotUnique
  {
    if users != [] {
      assert (users + [u])[1..] == users[1..] + [u];
      FindAfterSave(users[1..], u, userId);
    }
  }
}
