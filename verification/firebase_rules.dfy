/** The rules the data layer applies when it writes: the daily check-in streak,
    the free tier's message limit, liking a post and following a user. The
    document store is an immutable value; a day is an integer day number,
    and the current day is a parameter. */
module FirebaseRules {
  import opened Common

  /** The fields of a user document these rules read and write. An absent
      field is `None`. */
  datatype UserDoc = UserDoc(streak: Option<int>, lastActiveDate: Option<int>, tier: Tier,
                             messageCount: Option<int>, lastMessageDate: Option<int>)

  /** The field of a post document these rules write. */
  datatype PostDoc = PostDoc(likeCount: int)

  /** The documents the rules touch:
      - `users`: `users/{id}`;
      - `checkins`: `dailyCheckins/{day}/responses/{userId}`, keyed by (day, user);
      - `posts`: `posts/{id}`;
      - `likes`: (post, user) for each `posts/{post}/likes/{user}`;
      - `following`: (user, target) for each `users/{user}/following/{target}`;
      - `followers`: (target, user) for each `users/{target}/followers/{user}`. */
  datatype Db = Db(users: map<string, UserDoc>, checkins: map<(int, string), string>,
                   posts: map<string, PostDoc>, likes: set<(string, string)>,
                   following: set<(string, string)>, followers: set<(string, string)>)

  /** Why an update failed: `updateDoc` on a document that does not exist. */
  datatype StoreError = NotFound(path: string)

  // ----- daily check-in -----

  /** `value || fallback` on an optional number: absent and zero both fall back. */
  function NumberOr(v: Option<int>, fallback: int): (r: int)
    ensures v.Some? && v.value != 0 ==> r == v.value
    ensures v.None? || v.value == 0 ==> r == fallback
  {
    if v.Some? && v.value != 0 then v.value else fallback
  }

  /** The stored streak is never negative. */
  predicate StreakSane(u: UserDoc) {
    u.streak.None? || u.streak.value >= 0
  }

  /** The streak decision as the source writes it, with `today` and
      `yesterday` taken from two separate clock reads: the `yesterday` test
      comes first, so when the two reads name the same day a repeat check-in
      counts as a new day, and a check-in after yesterday's resets. */
  function NextStreakAt(u: UserDoc, today: int, yesterday: int): (n: int)
    ensures u.lastActiveDate == Some(yesterday) ==> n == NumberOr(u.streak, 0) + 1
    ensures u.lastActiveDate != Some(yesterday) && u.lastActiveDate == Some(today) ==> n == NumberOr(u.streak, 1)
    ensures u.lastActiveDate != Some(yesterday) && u.lastActiveDate != Some(today) ==> n == 1
  {
    if u.lastActiveDate == Some(yesterday) then NumberOr(u.streak, 0) + 1
    else if u.lastActiveDate == Some(today) then NumberOr(u.streak, 1)
    else 1
  }

  /** The streak after checking in on `today`: one more than the stored streak
      after a check-in yesterday, the stored streak (at least 1) after one
      earlier today, and 1 after a gap or on the first check-in. Yesterday is
      the day before `today`. */
  function NextStreak(u: UserDoc, today: int): (n: int)
    ensures u.lastActiveDate == Some(today - 1) ==> n == NumberOr(u.streak, 0) + 1
    ensures u.lastActiveDate == Some(today) ==> n == NumberOr(u.streak, 1)
    ensures u.lastActiveDate != Some(today - 1) && u.lastActiveDate != Some(today) ==> n == 1
    ensures StreakSane(u) ==> n >= 1
  {
    NextStreakAt(u, today, today - 1)
  }

  /** When the second clock read lands on `today` itself, a repeat check-in
      adds one to the streak, where the day-before reading keeps it. */
  lemma SkewedYesterdayAdvancesRepeat(u: UserDoc, today: int)
    requires u.lastActiveDate == Some(today) && u.streak.Some? && u.streak.value >= 1
    ensures NextStreakAt(u, today, today) == NextStreak(u, today) + 1
  {
  }

  /** When the second clock read lands on `today` itself, a check-in the day
      after the last one resets the streak to 1, where the day-before reading
      extends it. */
  lemma SkewedYesterdayBreaksStreak(u: UserDoc, today: int)
    requires u.lastActiveDate == Some(today - 1) && u.streak.Some? && u.streak.value >= 1
    ensures NextStreakAt(u, today, today) == 1
    ensures NextStreak(u, today) == u.streak.value + 1 > 1
  {
  }

  /** Record the day's answer, then, when the user document exists, advance
      the streak and mark the user active today. Nothing else changes. */
  function SubmitDailyCheckin(db: Db, userId: string, response: string, today: int): (r: Db)
    ensures r.checkins == db.checkins[(today, userId) := response]
    ensures userId !in db.users ==> r.users == db.users
    ensures userId in db.users ==>
              r.users == db.users[userId := db.users[userId].(streak := Some(NextStreak(db.users[userId], today)),
                                                               lastActiveDate := Some(today))]
    ensures r.posts == db.posts && r.likes == db.likes
    ensures r.following == db.following && r.followers == db.followers
  {
    var written := db.(checkins := db.checkins[(today, userId) := response]);
    if userId in db.users then
      var u := db.users[userId];
      written.(users := db.users[userId := u.(streak := Some(NextStreak(u, today)), lastActiveDate := Some(today))])
    else written
  }

  /** A second check-in on the same day leaves the user document as the first left it. */
  lemma SecondCheckinSameDayKeepsStreak(db: Db, userId: string, a: string, b: string, today: int)
    requires userId in db.users && StreakSane(db.users[userId])
    ensures SubmitDailyCheckin(SubmitDailyCheckin(db, userId, a, today), userId, b, today).users
            == SubmitDailyCheckin(db, userId, a, today).users
  {
    var once := SubmitDailyCheckin(db, userId, a, today);
    var u := once.users[userId];
    assert u.streak.value >= 1;
    assert NextStreak(u, today) == u.streak.value;
  }

  /** Checking in on `k` consecutive days starting at `start`. */
  function CheckinDays(db: Db, userId: string, response: string, start: int, k: nat): Db
    decreases k
  {
    if k == 0 then db
    else CheckinDays(SubmitDailyCheckin(db, userId, response, start), userId, response, start + 1, k - 1)
  }

  /** After `k` consecutive daily check-ins that follow a gap (or none
      before), the streak is `k` and the user was last active on the last day. */
  lemma {:induction false} ConsecutiveCheckinsCount(db: Db, userId: string, response: string, start: int, k: nat)
    requires k >= 1
    requires userId in db.users
    requires db.users[userId].lastActiveDate != Some(start - 1)
    requires db.users[userId].lastActiveDate != Some(start)
    ensures userId in CheckinDays(db, userId, response, start, k).users
    ensures CheckinDays(db, userId, response, start, k).users[userId].streak == Some(k)
    ensures CheckinDays(db, userId, response, start, k).users[userId].lastActiveDate == Some(start + k - 1)
    decreases k
  {
    var next := SubmitDailyCheckin(db, userId, response, start);
    if k > 1 {
      ContinuingCheckins(next, userId, response, start + 1, k - 1, 1);
    }
  }

  /** Check-ins on consecutive days, each the day after the last, add one each. */
  lemma {:induction false} ContinuingCheckins(db: Db, userId: string, response: string, start: int, k: nat, s: nat)
    requires userId in db.users
    requires db.users[userId].lastActiveDate == Some(start - 1)
    requires db.users[userId].streak == Some(s)
    ensures userId in CheckinDays(db, userId, response, start, k).users
    ensures CheckinDays(db, userId, response, start, k).users[userId].streak == Some(s + k)
    ensures k > 0 ==> CheckinDays(db, userId, response, start, k).users[userId].lastActiveDate == Some(start + k - 1)
    decreases k
  {
    if k > 0 {
      var next := SubmitDailyCheckin(db, userId, response, start);
      assert next.users[userId].streak == Some(s + 1);
      ContinuingCheckins(next, userId, response, start + 1, k - 1, s + 1);
    }
  }

  /** Missing a day resets the streak to 1, whatever it was. */
  lemma MissedDayResetsStreak(db: Db, userId: string, response: string, today: int, last: int)
    requires userId in db.users && db.users[userId].lastActiveDate == Some(last)
    requires last < today - 1
    ensures SubmitDailyCheckin(db, userId, response, today).users[userId].streak == Some(1)
  {
  }

  // ----- message limit -----

  /** Free users may send five messages a day. */
  const FreeLimit: int := 5

  /** The verdict of the limit check: whether a message may be sent, and how many remain. */
  datatype LimitCheck = LimitCheck(canSend: bool, remaining: Quota)

  /** Decide whether the user may send a message today. A missing user may
      not; a premium user always may, with no limit; a free user's first check
      of a day resets the count (a write) and allows five; otherwise the
      stored count decides, with the remainder floored at 0. Only the reset writes. */
  function CheckMessageLimit(db: Db, userId: string, today: int): (r: (LimitCheck, Db))
    ensures r.0.canSend <==> r.0.remaining.Positive()
    ensures userId !in db.users ==> r == (LimitCheck(false, Finite(0)), db)
    ensures userId in db.users && db.users[userId].tier == Premium ==> r == (LimitCheck(true, Unlimited), db)
    ensures userId in db.users && db.users[userId].tier == Free ==> r.0.remaining.Finite?
    ensures userId in db.users && db.users[userId].tier == Free && db.users[userId].lastMessageDate != Some(today) ==>
              r == (LimitCheck(true, Finite(FreeLimit)),
                    db.(users := db.users[userId := db.users[userId].(messageCount := Some(0), lastMessageDate := Some(today))]))
    ensures userId in db.users && db.users[userId].tier == Free && db.users[userId].lastMessageDate == Some(today) ==>
              var c := NumberOr(db.users[userId].messageCount, 0);
              r == (LimitCheck(c < FreeLimit, Finite(if FreeLimit - c < 0 then 0 else FreeLimit - c)), db)
    ensures r.1 != db ==> userId in db.users && db.users[userId].lastMessageDate != Some(today)
    ensures r.1.checkins == db.checkins && r.1.posts == db.posts && r.1.likes == db.likes
    ensures r.1.following == db.following && r.1.followers == db.followers
  {
    if userId !in db.users then (LimitCheck(false, Finite(0)), db)
    else
      var u := db.users[userId];
      if u.tier == Premium then (LimitCheck(true, Unlimited), db)
      else if u.lastMessageDate != Some(today) then
        var reset := u.(messageCount := Some(0), lastMessageDate := Some(today));
        (LimitCheck(true, Finite(FreeLimit)), db.(users := db.users[userId := reset]))
      else
        var count := NumberOr(u.messageCount, 0);
        (LimitCheck(count < FreeLimit, Finite(if FreeLimit - count < 0 then 0 else FreeLimit - count)), db)
  }

  /** Count one sent message and mark today as the last message day. The
      update fails when the user document does not exist. */
  function IncrementMessageCount(db: Db, userId: string, today: int): (r: Result<Db, StoreError>)
    ensures r.Err? <==> userId !in db.users
    ensures r.Ok? ==> userId in db.users && userId in r.value.users
    ensures r.Ok? && userId in db.users && userId in r.value.users ==>
              r.value.users[userId] == db.users[userId].(messageCount := Some(OrZero(db.users[userId].messageCount) + 1),
                                                                lastMessageDate := Some(today))
    ensures r.Ok? ==> forall v :: v != userId ==> (v in r.value.users <==> v in db.users)
    ensures r.Ok? ==> forall v :: v in db.users && v != userId ==> v in r.value.users && r.value.users[v] == db.users[v]
    ensures r.Ok? ==> r.value.checkins == db.checkins && r.value.posts == db.posts && r.value.likes == db.likes
    ensures r.Ok? ==> r.value.following == db.following && r.value.followers == db.followers
  {
    if userId !in db.users then Err(NotFound("users/" + userId))
    else
      var u := db.users[userId];
      Ok(db.(users := db.users[userId := u.(messageCount := Some(OrZero(u.messageCount) + 1), lastMessageDate := Some(today))]))
  }

  /** Send `k` messages on `today`, counting each. */
  function SendMessages(db: Db, userId: string, today: int, k: nat): Db
    decreases k
  {
    if k == 0 then db
    else match IncrementMessageCount(db, userId, today)
      case Ok(next) => SendMessages(next, userId, today, k - 1)
      case Err(_) => db
  }

  /** After the first check of a day and `k` counted messages, a free user's
      check allows another message exactly while `k < 5`, and reports `5 - k`
      remaining (never below 0). */
  lemma {:induction false} FreeDailyAllowance(db: Db, userId: string, today: int, k: nat)
    requires userId in db.users && db.users[userId].tier == Free
    requires db.users[userId].lastMessageDate != Some(today)
    ensures var afterSend := SendMessages(CheckMessageLimit(db, userId, today).1, userId, today, k);
            CheckMessageLimit(afterSend, userId, today).0
            == LimitCheck(k < FreeLimit, Finite(if k < FreeLimit then FreeLimit - k else 0))
  {
    var start := CheckMessageLimit(db, userId, today).1;
    SentCounted(start, userId, today, k, 0);
  }

  /** Each counted message adds one to a same-day count. */
  lemma {:induction false} SentCounted(db: Db, userId: string, today: int, k: nat, c: nat)
    requires userId in db.users && db.users[userId].tier == Free
    requires db.users[userId].lastMessageDate == Some(today)
    requires OrZero(db.users[userId].messageCount) == c && db.users[userId].messageCount.Some?
    ensures var after := SendMessages(db, userId, today, k);
            userId in after.users && after.users[userId].tier == Free
            && after.users[userId].lastMessageDate == Some(today)
            && after.users[userId].messageCount == Some(c + k)
    decreases k
  {
    if k > 0 {
      var next := IncrementMessageCount(db, userId, today).value;
      SentCounted(next, userId, today, k - 1, c + 1);
    }
  }

  /** A premium user may always send, and checking never writes. */
  lemma PremiumAlwaysSends(db: Db, userId: string, today: int)
    requires userId in db.users && db.users[userId].tier == Premium
    ensures CheckMessageLimit(db, userId, today).0.canSend
    ensures CheckMessageLimit(db, userId, today).1 == db
  {
  }

  // ----- likes -----

  /** Whether `userId` has liked `postId`. */
  predicate Liked(db: Db, postId: string, userId: string) {
    (postId, userId) in db.likes
  }

  /** The users who like `postId`. */
  function Likers(db: Db, postId: string): set<string> {
    set pu | pu in db.likes && pu.0 == postId :: pu.1
  }

  /** Toggle `userId`'s like on `postId`: remove the like document and
      decrement the count when it exists, otherwise create it and increment.
      The like document is written first; the count update then fails when
      the post document does not exist, leaving the like toggled. The result
      is whether the post is now liked. */
  /** The writes of a like toggle, given what an earlier read of the like
      document found: delete it and decrement, or create it and increment.
      The source makes the read and these writes as separate steps, with no
      transaction around them. */
  function LikeCommit(db: Db, postId: string, userId: string, wasLiked: bool): (r: (Db, Result<bool, StoreError>))
    ensures Liked(r.0, postId, userId) <==> !wasLiked
    ensures forall p, u :: (p, u) != (postId, userId) ==> (Liked(r.0, p, u) <==> Liked(db, p, u))
    ensures r.1.Ok? <==> postId in db.posts
    ensures r.1.Ok? ==> r.1.value == !wasLiked
    ensures r.0.posts.Keys == db.posts.Keys
    ensures postId in db.posts ==>
              r.0.posts[postId].likeCount == db.posts[postId].likeCount + (if wasLiked then -1 else 1)
    ensures forall p :: p in db.posts && p != postId ==> r.0.posts[p] == db.posts[p]
    ensures r.0.users == db.users && r.0.checkins == db.checkins
    ensures r.0.following == db.following && r.0.followers == db.followers
  {
    var toggled := db.(likes := if wasLiked then db.likes - {(postId, userId)} else db.likes + {(postId, userId)});
    if postId !in db.posts then (toggled, Err(NotFound("posts/" + postId)))
    else
      var p := db.posts[postId];
      var counted := toggled.(posts := db.posts[postId := p.(likeCount := p.likeCount + (if wasLiked then -1 else 1))]);
      (counted, Ok(!wasLiked))
  }

  function LikePost(db: Db, postId: string, userId: string): (r: (Db, Result<bool, StoreError>))
    ensures Liked(r.0, postId, userId) <==> !Liked(db, postId, userId)
    ensures forall p, u :: (p, u) != (postId, userId) ==> (Liked(r.0, p, u) <==> Liked(db, p, u))
    ensures r.1.Ok? <==> postId in db.posts
    ensures r.1.Ok? ==> r.1.value == Liked(r.0, postId, userId)
    ensures r.0.posts.Keys == db.posts.Keys
    ensures postId in db.posts ==>
              r.0.posts[postId].likeCount == db.posts[postId].likeCount + (if Liked(db, postId, userId) then -1 else 1)
    ensures forall p :: p in db.posts && p != postId ==> r.0.posts[p] == db.posts[p]
    ensures r.0.users == db.users && r.0.checkins == db.checkins
    ensures r.0.following == db.following && r.0.followers == db.followers
  {
    LikeCommit(db, postId, userId, Liked(db, postId, userId))
  }

  /** Liking twice undoes the first like (or unlike) entirely. */
  lemma LikeTwiceRestores(db: Db, postId: string, userId: string)
    ensures LikePost(LikePost(db, postId, userId).0, postId, userId).0 == db
  {
    var once := LikePost(db, postId, userId).0;
    var twice := LikePost(once, postId, userId).0;
    assert twice.likes == db.likes;
    if postId in db.posts {
      assert twice.posts == db.posts;
    }
  }

  /** Every post's stored like count equals the number of its like documents. */
  predicate CountsMatch(db: Db) {
    forall p :: p in db.posts ==> db.posts[p].likeCount == |Likers(db, p)|
  }

  /** Toggling a like keeps every count matching its like documents. */
  lemma LikeKeepsCountsMatching(db: Db, postId: string, userId: string)
    requires CountsMatch(db)
    ensures CountsMatch(LikePost(db, postId, userId).0)
  {
    var r := LikePost(db, postId, userId).0;
    forall p | p in r.posts
      ensures r.posts[p].likeCount == |Likers(r, p)|
    {
      if p == postId {
        if Liked(db, postId, userId) {
          assert Likers(r, p) == Likers(db, p) - {userId};
        } else {
          assert Likers(r, p) == Likers(db, p) + {userId};
        }
      } else {
        assert Likers(r, p) == Likers(db, p);
      }
    }
  }

  /** Two like calls that both read the like document before either writes
      (a double click on a post not yet liked) create one like document but
      add two to the count, so the count no longer matches. */
  lemma OverlappingLikesMiscount(db: Db, postId: string, userId: string)
    requires CountsMatch(db) && postId in db.posts && !Liked(db, postId, userId)
    ensures var second := LikeCommit(LikeCommit(db, postId, userId, false).0, postId, userId, false).0;
            Liked(second, postId, userId)
            && second.posts[postId].likeCount == |Likers(second, postId)| + 1
            && !CountsMatch(second)
  {
    var first := LikeCommit(db, postId, userId, false).0;
    var second := LikeCommit(first, postId, userId, false).0;
    assert userId !in Likers(db, postId);
    assert Likers(second, postId) == Likers(db, postId) + {userId};
  }

  // ----- follows -----

  /** Whether `a` follows `b`, as `users/{a}/following/{b}` records it. */
  predicate Follows(db: Db, a: string, b: string) {
    (a, b) in db.following
  }

  /** The two edge sets agree: `a` lists `b` under following exactly when `b`
      lists `a` under followers. */
  predicate Mirrored(db: Db) {
    && (forall e :: e in db.following ==> (e.1, e.0) in db.followers)
    && (forall e :: e in db.followers ==> (e.1, e.0) in db.following)
  }

  /** Mirroring, pair by pair. */
  lemma MirroredPairs(db: Db, a: string, b: string)
    requires Mirrored(db)
    ensures Follows(db, a, b) <==> (b, a) in db.followers
  {
    if (b, a) in db.followers {
      assert ((b, a).1, (b, a).0) in db.following;
    }
  }

  /** Write both edge documents in one batch. Following oneself is not refused. */
  function FollowUser(db: Db, current: string, target: string): (r: Db)
    ensures Follows(r, current, target)
    ensures (target, current) in r.followers
    ensures forall a, b :: (a, b) != (current, target) ==> (Follows(r, a, b) <==> Follows(db, a, b))
    ensures forall a, b :: (a, b) != (target, current) ==> ((a, b) in r.followers <==> (a, b) in db.followers)
    ensures r.users == db.users && r.posts == db.posts && r.likes == db.likes && r.checkins == db.checkins
  {
    db.(following := db.following + {(current, target)}, followers := db.followers + {(target, current)})
  }

  /** Delete both edge documents in one batch; deleting a missing document is not an error. */
  function UnfollowUser(db: Db, current: string, target: string): (r: Db)
    ensures !Follows(r, current, target)
    ensures (target, current) !in r.followers
    ensures forall a, b :: (a, b) != (current, target) ==> (Follows(r, a, b) <==> Follows(db, a, b))
    ensures forall a, b :: (a, b) != (target, current) ==> ((a, b) in r.followers <==> (a, b) in db.followers)
    ensures r.users == db.users && r.posts == db.posts && r.likes == db.likes && r.checkins == db.checkins
  {
    db.(following := db.following - {(current, target)}, followers := db.followers - {(target, current)})
  }

  /** Following keeps the two edge sets mirrored. */
  lemma FollowKeepsMirrored(db: Db, current: string, target: string)
    requires Mirrored(db)
    ensures Mirrored(FollowUser(db, current, target))
  {
  }

  /** Unfollowing keeps the two edge sets mirrored. */
  lemma UnfollowKeepsMirrored(db: Db, current: string, target: string)
    requires Mirrored(db)
    ensures Mirrored(UnfollowUser(db, current, target))
  {
  }

  /** Following someone already followed changes nothing. */
  lemma FollowIdempotent(db: Db, current: string, target: string)
    requires Mirrored(db) && Follows(db, current, target)
    ensures FollowUser(db, current, target) == db
  {
    MirroredPairs(db, current, target);
  }

  /** Unfollowing right after a fresh follow restores the store. */
  lemma UnfollowUndoesFollow(db: Db, current: string, target: string)
    requires Mirrored(db) && !Follows(db, current, target)
    ensures UnfollowUser(FollowUser(db, current, target), current, target) == db
  {
    MirroredPairs(db, current, target);
  }
}
