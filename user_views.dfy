/**
 * The account views of users/views.py: the top-five leaderboard, a user's
 * place in the rating, activation through the emailed link, and switching
 * off the information pop-up.
 */
module UserViews {
  import opened Wrappers
  import opened Collections
  import opened UserModel
  import opened UserForms
  import opened Database

  // ---- Leaderboard ----

  const LeaderboardSize: nat := 5

  /** Who may appear in the top: active accounts that have scored. */
  predicate OnLeaderboard(u: MyUser) {
    u.isActive && u.score > 0
  }

  /** `order_by('-score')`: higher scores first. */
  predicate HigherScoreFirst(a: MyUser, b: MyUser) {
    a.score >= b.score
  }

  lemma HigherScoreFirstIsTotalPreorder()
    ensures TotalPreorder(HigherScoreFirst)
  {
  }

  /** `TopUsers.get_queryset`, over the rows of the user table in database order. */
  function TopUsers(users: seq<MyUser>): (r: seq<MyUser>)
    ensures |r| <= LeaderboardSize
    ensures forall i :: 0 <= i < |r| ==> r[i] in users && OnLeaderboard(r[i])
    ensures SortedBy(r, HigherScoreFirst)
    ensures multiset(r) <= multiset(users)
    ensures |r| == if Count(users, OnLeaderboard) < LeaderboardSize then Count(users, OnLeaderboard) else LeaderboardSize
    ensures forall u :: u in users && OnLeaderboard(u) && u !in r ==> forall i :: 0 <= i < |r| ==> r[i].score >= u.score
  {
    HigherScoreFirstIsTotalPreorder();
    var eligible := Filter(users, OnLeaderboard);
    var sorted := Sort(eligible, HigherScoreFirst);
    TopOfSorted(eligible, sorted);
    forall u | u in users && OnLeaderboard(u)
      ensures u in sorted
    {
      FilterMembership(users, OnLeaderboard, u);
      assert u in multiset(sorted);
    }
    Take(sorted, LeaderboardSize)
  }

  /** The first rows of a sorted copy of the eligible rows: eligible, sorted, and none outranked by a row left out. */
  lemma TopOfSorted(eligible: seq<MyUser>, sorted: seq<MyUser>)
    requires multiset(sorted) == multiset(eligible) && SortedBy(sorted, HigherScoreFirst)
    ensures var r := Take(sorted, LeaderboardSize);
            (forall i :: 0 <= i < |r| ==> r[i] in eligible) &&
            SortedBy(r, HigherScoreFirst) &&
            forall u :: u in sorted && u !in r ==> forall i :: 0 <= i < |r| ==> r[i].score >= u.score
  {
    var r := Take(sorted, LeaderboardSize);
    forall i | 0 <= i < |r| ensures r[i] in eligible {
      assert r[i] == sorted[i];
      assert sorted[i] in multiset(eligible);
    }
    forall u | u in sorted && u !in r
      ensures forall i :: 0 <= i < |r| ==> r[i].score >= u.score
    {
      var k :| 0 <= k < |sorted| && sorted[k] == u;
      assert k >= |r| by {
        assert forall j :: 0 <= j < |r| ==> r[j] == sorted[j];
      }
      forall i | 0 <= i < |r| ensures r[i].score >= u.score {
        assert r[i] == sorted[i];
      }
    }
  }

  // ---- Rating position ----

  /**
   * `ProfileView.get_context_data`: the number of accounts scoring at least
   * as much as `u` (who is logged in, hence in the table).
   */
  function Rank(users: seq<MyUser>, u: MyUser): (r: nat)
    requires u in users
    ensures 1 <= r <= |users|
  {
    FilterMembership(users, (v: MyUser) => v.score >= u.score, u);
    Count(users, (v: MyUser) => v.score >= u.score)
  }

  /** A higher score never gives a worse position. */
  lemma RankRespectsScore(users: seq<MyUser>, a: MyUser, b: MyUser)
    requires a in users && b in users
    requires a.score >= b.score
    ensures Rank(users, a) <= Rank(users, b)
  {
    CountMonotonic(users, (v: MyUser) => v.score >= a.score, (v: MyUser) => v.score >= b.score);
  }

  /** First place means nobody else scores as much. */
  lemma FirstPlaceIsStrictlyBest(users: seq<MyUser>, u: MyUser, v: MyUser)
    requires u in users && v in users && v != u
    requires Rank(users, u) == 1
    ensures v.score < u.score
  {
    var p := (w: MyUser) => w.score >= u.score;
    var f := Filter(users, p);
    FilterMembership(users, p, u);
    FilterMembership(users, p, v);
  }

  // ---- Activation ----

  datatype VerifyOutcome =
    | Activated    // the account is active and logged in
    | KeyExpired   // redirected to the failure page: the key is older than 48 hours
    | Failed       // redirected to the failure page: unknown email, wrong key, or no creation time

  /**
   * `Verify.get` for the account the email found: first the expiry (a
   * missing creation time raises, which the view reports as a failure),
   * then the key itself.
   */
  function VerifyDecision(u: MyUser, key: string, now: Time): (o: VerifyOutcome)
    ensures o == KeyExpired <==> IsActivationKeyExpired(u, now) == Some(true)
    ensures o == Activated <==> IsActivationKeyExpired(u, now) == Some(false) && u.activationKey == Some(key)
  {
    match IsActivationKeyExpired(u, now)
    case None => Failed
    case Some(true) => KeyExpired
    case Some(false) => if u.activationKey == Some(key) then Activated else Failed
  }

  /** What a successful activation stores: an empty key, no creation time, and an active account. */
  function Activate(u: MyUser): (r: MyUser)
    ensures r.isActive && r.activationKey == Some("") && r.activationKeyCreated == None
    ensures r.(isActive := u.isActive, activationKey := u.activationKey, activationKeyCreated := u.activationKeyCreated) == u
  {
    u.(activationKey := Some(""), activationKeyCreated := None, isActive := true)
  }

  /** An expired key is refused even when it is the right one. */
  lemma ExpiryCheckedFirst(u: MyUser, now: Time)
    requires u.activationKey.Some? && u.activationKeyCreated.Some?
    requires now > u.activationKeyCreated.value + ActivationKeyLifetime
    ensures VerifyDecision(u, u.activationKey.value, now) == KeyExpired
  {
  }

  /** An activation link works once: the second visit fails. */
  lemma SecondVerifyFails(u: MyUser, key: string, now: Time)
    ensures VerifyDecision(Activate(u), key, now) == Failed
  {
  }

  /** A registration's link, followed within 48 hours, activates the account. */
  lemma RegistrationThenVerify(id: nat, username: string, firstName: string, lastName: string,
                               email: string, created: Time, digest: string, t: Time)
    requires |digest| == DigestLength
    requires created <= t <= created + ActivationKeyLifetime
    ensures var u := RegisterSave(NewUser(id, username, firstName, lastName, email, created), digest);
            VerifyDecision(u, digest, t) == Activated && Activate(u).isActive
  {
    RegisteredUserAwaitsActivation(id, username, firstName, lastName, email, created, digest, t);
  }

  /**
   * `Verify.get`: look the account up by email and apply the decision.
   * Only a successful activation changes the table.
   */
  method Verify(store: Store, email: string, key: string, now: Time) returns (o: VerifyOutcome)
    requires store.Valid()
    modifies store
    ensures store.Valid()
    ensures (forall id :: id in old(store.users) ==> old(store.users)[id].email != email) ==> o == Failed
    ensures forall id :: id in old(store.users) && old(store.users)[id].email == email ==>
              o == VerifyDecision(old(store.users)[id], key, now) &&
              (o == Activated ==> store.users == old(store.users)[id := Activate(old(store.users)[id])])
    ensures o != Activated ==> store.users == old(store.users)
    ensures store.categories == old(store.categories) && store.questions == old(store.questions) &&
            store.posts == old(store.posts)
  {
    if !exists id :: id in store.users && store.users[id].email == email {
      return Failed;
    }
    var id :| id in store.users && store.users[id].email == email;
    var u := store.users[id];
    o := VerifyDecision(u, key, now);
    if o == Activated {
      UserChangeKeepsTables(store.users, store.categories, store.questions, store.posts, id, Activate(u));
      store.users := store.users[id := Activate(u)];
    }
  }

  // ---- The information pop-up ----

  datatype NoInfoOutcome =
    | InfoHidden     // `info` switched off
    | NoResponse     // not an AJAX request with flag 'true': nothing changes
    | FlagMissing    // AJAX request without a 'flag' field: KeyError
    | UserNotFound   // the logged-in account is gone: DoesNotExist

  /** `UserNoInfo.post`. */
  method NoInfo(store: Store, userId: nat, isAjax: bool, postFlag: Option<string>) returns (o: NoInfoOutcome)
    requires store.Valid()
    modifies store
    ensures store.Valid()
    ensures o == InfoHidden <==> isAjax && postFlag == Some("true") && userId in old(store.users)
    ensures o == FlagMissing <==> isAjax && postFlag.None?
    ensures o == InfoHidden ==> store.users == old(store.users)[userId := old(store.users)[userId].(info := false)]
    ensures o != InfoHidden ==> store.users == old(store.users)
    ensures store.categories == old(store.categories) && store.questions == old(store.questions) &&
            store.posts == old(store.posts)
  {
    if !isAjax {
      return NoResponse;
    }
    if postFlag.None? {
      return FlagMissing;
    }
    if postFlag.value != "true" {
      return NoResponse;
    }
    if userId !in store.users {
      return UserNotFound;
    }
    var u := store.users[userId].(info := false);
    UserChangeKeepsTables(store.users, store.categories, store.questions, store.posts, userId, u);
    store.users := store.users[userId := u];
    o := InfoHidden;
  }
}
