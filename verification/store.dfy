/** The client-side stores. Each store is a record of state and a set of
    reducers: a reducer here is a pure function from the old state (and the
    action's arguments) to the new state. */

/** The assessment in progress: the answers given so far and the stored result. */
module AssessmentStore {
  import opened Common
  import Assessment

  datatype StoredResult = StoredResult(scores: Assessment.LucidScores, archetype: Assessment.Archetype)

  /** `currentAnswers` is a JavaScript array that may have holes: `None` is an
      index that was never written. */
  datatype State = State(currentAnswers: seq<Option<int>>, isComplete: bool, result: Option<StoredResult>)

  const Initial: State := State([], false, None)

  /** `n` holes. */
  function Holes(n: nat): (r: seq<Option<int>>)
    ensures |r| == n && forall i :: 0 <= i < n ==> r[i] == None
  {
    if n == 0 then [] else Holes(n - 1) + [None]
  }

  /** Copies the answers and assigns `answerIndex` at `questionIndex`. Writing
      past the end grows the array and leaves holes in between; a negative
      index names a property, not an element, so the elements are unchanged. */
  function SetAnswer(s: State, questionIndex: int, answerIndex: int): (r: State)
    ensures r.isComplete == s.isComplete && r.result == s.result
    ensures questionIndex < 0 ==> r.currentAnswers == s.currentAnswers
    ensures questionIndex >= 0 ==>
              |r.currentAnswers| == (if questionIndex < |s.currentAnswers| then |s.currentAnswers| else questionIndex + 1)
              && r.currentAnswers[questionIndex] == Some(answerIndex)
    ensures forall j :: 0 <= j < |s.currentAnswers| && j != questionIndex ==> r.currentAnswers[j] == s.currentAnswers[j]
    ensures forall j :: |s.currentAnswers| <= j < |r.currentAnswers| && j != questionIndex ==> r.currentAnswers[j] == None
  {
    var a := s.currentAnswers;
    var a' := if questionIndex < 0 then a
              else if questionIndex < |a| then a[questionIndex := Some(answerIndex)]
              else a + Holes(questionIndex - |a|) + [Some(answerIndex)];
    s.(currentAnswers := a')
  }

  /** A second answer to the same question replaces the first. */
  lemma SetAnswerLastWriteWins(s: State, q: int, x: int, y: int)
    ensures SetAnswer(SetAnswer(s, q, x), q, y) == SetAnswer(s, q, y)
  {
    var l, r := SetAnswer(SetAnswer(s, q, x), q, y).currentAnswers, SetAnswer(s, q, y).currentAnswers;
    assert |l| == |r|;
    assert forall j :: 0 <= j < |l| ==> l[j] == r[j];
  }

  /** Answers to different questions can be given in either order. */
  lemma SetAnswerCommutes(s: State, q1: int, x: int, q2: int, y: int)
    requires q1 != q2
    ensures SetAnswer(SetAnswer(s, q1, x), q2, y) == SetAnswer(SetAnswer(s, q2, y), q1, x)
  {
    var l, r := SetAnswer(SetAnswer(s, q1, x), q2, y).currentAnswers, SetAnswer(SetAnswer(s, q2, y), q1, x).currentAnswers;
    assert |l| == |r|;
    assert forall j :: 0 <= j < |l| ==> l[j] == r[j];
  }

  /** Answering questions 0, 1, ..., n - 1 in order leaves no hole. */
  lemma {:induction false} AnsweringInOrderLeavesNoHoles(s: State, answers: seq<int>)
    requires s.currentAnswers == []
    ensures var r := AnswerAll(s, answers);
            |r.currentAnswers| == |answers| && forall i :: 0 <= i < |answers| ==> r.currentAnswers[i] == Some(answers[i])
    decreases |answers|
  {
    if |answers| > 0 {
      AnsweringInOrderLeavesNoHoles(s, answers[..|answers| - 1]);
      assert answers[..|answers| - 1] + [answers[|answers| - 1]] == answers;
    }
  }

  /** Writes `answers[i]` at index `i`, for each `i` in order. */
  function AnswerAll(s: State, answers: seq<int>): State
    decreases |answers|
  {
    if |answers| == 0 then s
    else SetAnswer(AnswerAll(s, answers[..|answers| - 1]), |answers| - 1, answers[|answers| - 1])
  }

  function SetResult(s: State, result: StoredResult): (r: State)
    ensures r.result == Some(result) && r.isComplete && r.currentAnswers == s.currentAnswers
  {
    s.(result := Some(result), isComplete := true)
  }

  function ResetAssessment(s: State): (r: State)
    ensures r == Initial
  {
    State([], false, None)
  }

  /** The assessment counts as complete exactly when a result is stored. */
  predicate ResultConsistent(s: State) {
    s.isComplete <==> s.result.Some?
  }

  /** Every reducer keeps `isComplete` in step with the stored result, and
      after a reset answering in order starts from a clean slate. */
  lemma AssessmentReducersKeepResultConsistent(s: State, q: int, x: int, result: StoredResult, answers: seq<int>)
    requires ResultConsistent(s)
    ensures ResultConsistent(Initial)
    ensures ResultConsistent(SetAnswer(s, q, x))
    ensures ResultConsistent(SetResult(s, result))
    ensures ResultConsistent(ResetAssessment(s))
    ensures var r := AnswerAll(ResetAssessment(s), answers);
            |r.currentAnswers| == |answers| && forall i :: 0 <= i < |answers| ==> r.currentAnswers[i] == Some(answers[i])
  {
    AnsweringInOrderLeavesNoHoles(ResetAssessment(s), answers);
  }
}

/** The coaching chat: the visible messages and the role/content history sent to the model. */
module ChatStore {
  import opened Common

  /** `timestamp` is a time in milliseconds; the clock itself is outside the model. */
  datatype ChatMessage = ChatMessage(id: string, role: Role, content: string, timestamp: int)

  datatype State = State(currentConversationId: Option<string>, messages: seq<ChatMessage>,
                         isLoading: bool, isTyping: bool, deepDiveMode: bool,
                         conversationHistory: seq<Turn>)

  const Initial: State := State(None, [], false, false, false, [])

  function Project(m: ChatMessage): Turn {
    Turn(m.role, m.content)
  }

  /** The history is the role and content of each message, in the same order. */
  predicate InSync(s: State) {
    |s.conversationHistory| == |s.messages|
    && forall i :: 0 <= i < |s.messages| ==> s.conversationHistory[i] == Project(s.messages[i])
  }

  function History(ms: seq<ChatMessage>): (h: seq<Turn>)
    ensures |h| == |ms| && forall i :: 0 <= i < |ms| ==> h[i] == Project(ms[i])
  {
    if |ms| == 0 then [] else [Project(ms[0])] + History(ms[1..])
  }

  /** Replaces the messages and rebuilds the history from them. */
  function SetMessages(s: State, messages: seq<ChatMessage>): (r: State)
    ensures r.messages == messages && InSync(r)
    ensures r.currentConversationId == s.currentConversationId && r.deepDiveMode == s.deepDiveMode
    ensures r.isLoading == s.isLoading && r.isTyping == s.isTyping
  {
    s.(messages := messages, conversationHistory := History(messages))
  }

  /** Appends one message to both lists. */
  function AddMessage(s: State, message: ChatMessage): (r: State)
    ensures r.messages == s.messages + [message]
    ensures InSync(s) ==> InSync(r)
    ensures r.currentConversationId == s.currentConversationId && r.deepDiveMode == s.deepDiveMode
    ensures r.isLoading == s.isLoading && r.isTyping == s.isTyping
  {
    s.(messages := s.messages + [message],
       conversationHistory := s.conversationHistory + [Turn(message.role, message.content)])
  }

  /** Adding a message to a synced state is the same as setting the longer list. */
  lemma AddMessageIsSetMessages(s: State, messages: seq<ChatMessage>, m: ChatMessage)
    ensures AddMessage(SetMessages(s, messages), m) == SetMessages(s, messages + [m])
  {
    var l, r := AddMessage(SetMessages(s, messages), m), SetMessages(s, messages + [m]);
    assert l.conversationHistory == r.conversationHistory;
  }

  /** Empties both lists and forgets the conversation. */
  function ClearChat(s: State): (r: State)
    ensures r.messages == [] && InSync(r) && r.currentConversationId.None?
    ensures r.deepDiveMode == s.deepDiveMode && r.isLoading == s.isLoading && r.isTyping == s.isTyping
  {
    s.(messages := [], conversationHistory := [], currentConversationId := None)
  }

  function SetCurrentConversation(s: State, id: Option<string>): (r: State)
    ensures r.currentConversationId == id
    ensures r.messages == s.messages && r.conversationHistory == s.conversationHistory
    ensures r.isLoading == s.isLoading && r.isTyping == s.isTyping && r.deepDiveMode == s.deepDiveMode
  {
    s.(currentConversationId := id)
  }

  function ToggleDeepDive(s: State): (r: State)
    ensures r.deepDiveMode != s.deepDiveMode
    ensures r.messages == s.messages && r.conversationHistory == s.conversationHistory
    ensures r.currentConversationId == s.currentConversationId
    ensures r.isLoading == s.isLoading && r.isTyping == s.isTyping
  {
    s.(deepDiveMode := !s.deepDiveMode)
  }

  /** Toggling deep-dive mode twice changes nothing. */
  lemma ToggleDeepDiveTwice(s: State)
    ensures ToggleDeepDive(ToggleDeepDive(s)) == s
  {
  }

  /** Every reducer keeps the history in step with the messages; switching
      conversations only relabels what is on screen. */
  lemma ChatReducersKeepInSync(s: State, ms: seq<ChatMessage>, m: ChatMessage, id: Option<string>)
    requires InSync(s)
    ensures InSync(Initial)
    ensures InSync(SetMessages(s, ms)) && InSync(AddMessage(s, m)) && InSync(ClearChat(s))
    ensures InSync(SetCurrentConversation(s, id)) && InSync(ToggleDeepDive(s))
    ensures SetCurrentConversation(SetCurrentConversation(s, id), s.currentConversationId) == s
  {
  }
}

/** The community feed: the posts on screen and which feed they come from. */
module FeedStore {
  import opened Common

  datatype FeedType = ForYou | Following

  /** A post as the feed shows it. `createdAt` is a time in milliseconds. */
  datatype FeedPost = FeedPost(id: string, authorId: string, authorName: string,
                               authorAvatar: Option<string>, authorLevel: Option<int>,
                               content: string, imageUrl: Option<string>, channel: Option<string>,
                               isAnonymous: bool, createdAt: int, likeCount: int, commentCount: int,
                               isLiked: Option<bool>)

  /** A partial post: `Some` fields overwrite, `None` fields are absent. */
  datatype PostPatch = PostPatch(id: Option<string>, authorId: Option<string>, authorName: Option<string>,
                                 authorAvatar: Option<string>, authorLevel: Option<int>,
                                 content: Option<string>, imageUrl: Option<string>, channel: Option<string>,
                                 isAnonymous: Option<bool>, createdAt: Option<int>, likeCount: Option<int>,
                                 commentCount: Option<int>, isLiked: Option<bool>)

  datatype State = State(posts: seq<FeedPost>, feedType: FeedType, isLoading: bool, hasMore: bool)

  const Initial: State := State([], ForYou, false, true)

  /** After the spread, a field holds the patch's value when the patch has
      one and the post's own value otherwise. */
  predicate Wins<T(==)>(before: T, patch: Option<T>, after: T) {
    (patch.Some? ==> after == patch.value) && (patch.None? ==> after == before)
  }

  /** The same for a field that is optional in the post itself. */
  predicate WinsOptional<T(==)>(before: Option<T>, patch: Option<T>, after: Option<T>) {
    (patch.Some? ==> after == patch) && (patch.None? ==> after == before)
  }

  /** Object spread `{ ...p, ...patch }`: present fields of the patch win,
      field by field, and absent ones keep the post's value. */
  function Apply(p: FeedPost, d: PostPatch): (q: FeedPost)
    ensures Wins(p.id, d.id, q.id) && Wins(p.authorId, d.authorId, q.authorId)
    ensures Wins(p.authorName, d.authorName, q.authorName)
    ensures WinsOptional(p.authorAvatar, d.authorAvatar, q.authorAvatar)
    ensures WinsOptional(p.authorLevel, d.authorLevel, q.authorLevel)
    ensures Wins(p.content, d.content, q.content)
    ensures WinsOptional(p.imageUrl, d.imageUrl, q.imageUrl) && WinsOptional(p.channel, d.channel, q.channel)
    ensures Wins(p.isAnonymous, d.isAnonymous, q.isAnonymous) && Wins(p.createdAt, d.createdAt, q.createdAt)
    ensures Wins(p.likeCount, d.likeCount, q.likeCount) && Wins(p.commentCount, d.commentCount, q.commentCount)
    ensures WinsOptional(p.isLiked, d.isLiked, q.isLiked)
  {
    FeedPost(d.id.GetOr(p.id), d.authorId.GetOr(p.authorId), d.authorName.GetOr(p.authorName),
             PatchOptional(p.authorAvatar, d.authorAvatar), PatchOptional(p.authorLevel, d.authorLevel),
             d.content.GetOr(p.content),
             PatchOptional(p.imageUrl, d.imageUrl), PatchOptional(p.channel, d.channel),
             d.isAnonymous.GetOr(p.isAnonymous), d.createdAt.GetOr(p.createdAt),
             d.likeCount.GetOr(p.likeCount), d.commentCount.GetOr(p.commentCount),
             PatchOptional(p.isLiked, d.isLiked))
  }

  /** An optional field after the spread: the patch's value when present. */
  function PatchOptional<T>(before: Option<T>, patch: Option<T>): Option<T> {
    if patch.Some? then patch else before
  }

  /** Applying the same patch twice is applying it once. */
  lemma ApplyIdempotent(p: FeedPost, d: PostPatch)
    ensures Apply(Apply(p, d), d) == Apply(p, d)
  {
  }

  /** `posts.some(ep => ep.id === id)`. */
  function HasId(posts: seq<FeedPost>, id: string): (b: bool)
    ensures b <==> exists i :: 0 <= i < |posts| && posts[i].id == id
  {
    if |posts| == 0 then false else posts[0].id == id || HasId(posts[1..], id)
  }

  /** The incoming posts whose id is not already present, in incoming order. */
  function FreshPosts(existing: seq<FeedPost>, incoming: seq<FeedPost>): (r: seq<FeedPost>)
    ensures forall p :: p in r <==> p in incoming && !HasId(existing, p.id)
    ensures Subsequence(r, incoming)
    ensures |r| <= |incoming|
    decreases |incoming|
  {
    if |incoming| == 0 then []
    else
      var rest := FreshPosts(existing, incoming[1..]);
      if !HasId(existing, incoming[0].id) then [incoming[0]] + rest else rest
  }

  /** The fresh posts keep every copy of a new post the page carries, and
      no copy of a post whose id is already shown. */
  lemma {:induction false} FreshPostsCopies(existing: seq<FeedPost>, incoming: seq<FeedPost>)
    ensures forall p :: multiset(FreshPosts(existing, incoming))[p]
                        == if HasId(existing, p.id) then 0 else multiset(incoming)[p]
    decreases |incoming|
  {
    if |incoming| > 0 {
      assert incoming == [incoming[0]] + incoming[1..];
      FreshPostsCopies(existing, incoming[1..]);
    }
  }

  /** Appends the incoming posts whose id is not on screen yet. The existing
      posts stay first and unchanged; incoming posts are compared with the
      existing ones only, not with each other. */
  function AddPosts(s: State, incoming: seq<FeedPost>): (r: State)
    ensures |s.posts| <= |r.posts| <= |s.posts| + |incoming|
    ensures r.posts[..|s.posts|] == s.posts
    ensures forall p :: p in r.posts[|s.posts|..] <==> p in incoming && !HasId(s.posts, p.id)
    ensures forall p :: multiset(r.posts[|s.posts|..])[p] == if HasId(s.posts, p.id) then 0 else multiset(incoming)[p]
    ensures Subsequence(r.posts[|s.posts|..], incoming)
    ensures forall p :: p in incoming ==> HasId(r.posts, p.id)
    ensures r.feedType == s.feedType && r.hasMore == s.hasMore && r.isLoading == s.isLoading
  {
    var added := FreshPosts(s.posts, incoming);
    var posts := s.posts + added;
    FreshPostsCopies(s.posts, incoming);
    FreshPostsCoverIncoming(s.posts, incoming);
    assert posts[..|s.posts|] == s.posts && posts[|s.posts|..] == added;
    s.(posts := posts)
  }

  /** After the fresh posts are appended, every incoming id is on screen. */
  lemma FreshPostsCoverIncoming(existing: seq<FeedPost>, incoming: seq<FeedPost>)
    ensures forall p :: p in incoming ==> HasId(existing + FreshPosts(existing, incoming), p.id)
  {
    var added := FreshPosts(existing, incoming);
    var posts := existing + added;
    forall p | p in incoming ensures HasId(posts, p.id) {
      if !HasId(existing, p.id) {
        var i :| 0 <= i < |added| && added[i] == p;
        assert posts[|existing| + i] == p;
      } else {
        var i :| 0 <= i < |existing| && existing[i].id == p.id;
        assert posts[i] == existing[i];
      }
    }
  }

  /** When every incoming id is already present nothing is added. */
  lemma {:induction false} NoneFreshWhenCovered(existing: seq<FeedPost>, incoming: seq<FeedPost>)
    requires forall p :: p in incoming ==> HasId(existing, p.id)
    ensures FreshPosts(existing, incoming) == []
    decreases |incoming|
  {
    if |incoming| > 0 {
      assert forall p :: p in incoming[1..] ==> p in incoming;
      NoneFreshWhenCovered(existing, incoming[1..]);
    }
  }

  /** Loading the same page twice adds it once. */
  lemma AddPostsIdempotent(s: State, incoming: seq<FeedPost>)
    ensures AddPosts(AddPosts(s, incoming), incoming) == AddPosts(s, incoming)
  {
    var once := AddPosts(s, incoming);
    NoneFreshWhenCovered(once.posts, incoming);
    assert once.posts + [] == once.posts;
  }

  /** No two posts share an id. */
  predicate DistinctIds(posts: seq<FeedPost>) {
    forall i, j :: 0 <= i < j < |posts| ==> posts[i].id != posts[j].id
  }

  /** Distinct ids stay distinct when each incoming page has distinct ids. */
  lemma AddPostsKeepsIdsDistinct(s: State, incoming: seq<FeedPost>)
    requires DistinctIds(s.posts) && DistinctIds(incoming)
    ensures DistinctIds(AddPosts(s, incoming).posts)
  {
    var added := FreshPosts(s.posts, incoming);
    FreshDistinct(s.posts, incoming);
    var r := AddPosts(s, incoming).posts;
    assert r == s.posts + added;
    forall i, j | 0 <= i < j < |r| ensures r[i].id != r[j].id {
      if j >= |s.posts| && i < |s.posts| {
        assert r[j] in added;
        assert r[i] == s.posts[i];
      }
    }
  }

  /** The added part of a page with distinct ids has distinct ids. */
  lemma {:induction false} FreshDistinct(existing: seq<FeedPost>, incoming: seq<FeedPost>)
    requires DistinctIds(incoming)
    ensures DistinctIds(FreshPosts(existing, incoming))
    decreases |incoming|
  {
    if |incoming| > 0 {
      var rest := FreshPosts(existing, incoming[1..]);
      FreshDistinct(existing, incoming[1..]);
      if !HasId(existing, incoming[0].id) {
        var r := [incoming[0]] + rest;
        HeadIdNotInFreshTail(existing, incoming);
        forall i, j | 0 <= i < j < |r| ensures r[i].id != r[j].id {
          if i == 0 {
            assert r[j] == rest[j - 1];
          } else {
            assert r[i] == rest[i - 1] && r[j] == rest[j - 1];
          }
        }
      }
    }
  }

  /** In a page with distinct ids, the first post's id is not among the fresh
      posts taken from the rest of the page. */
  lemma HeadIdNotInFreshTail(existing: seq<FeedPost>, incoming: seq<FeedPost>)
    requires |incoming| > 0 && DistinctIds(incoming)
    ensures forall p :: p in FreshPosts(existing, incoming[1..]) ==> p.id != incoming[0].id
  {
    forall p | p in FreshPosts(existing, incoming[1..]) ensures p.id != incoming[0].id {
      var k :| 0 <= k < |incoming[1..]| && incoming[1..][k] == p;
      assert incoming[k + 1] == p;
    }
  }

  /** A page that repeats a new post keeps both copies: only ids already on
      screen are filtered out. */
  lemma AddPostsKeepsRepeatsWithinPage(s: State, p: FeedPost)
    requires !HasId(s.posts, p.id)
    ensures AddPosts(s, [p, p]).posts == s.posts + [p, p]
  {
    assert [p, p][1..] == [p];
    assert [p][1..] == [];
  }

  /** Patches every post carrying `id`; the others are untouched. */
  function UpdatePost(s: State, id: string, data: PostPatch): (r: State)
    ensures |r.posts| == |s.posts|
    ensures forall i :: 0 <= i < |s.posts| && s.posts[i].id != id ==> r.posts[i] == s.posts[i]
    ensures forall i :: 0 <= i < |s.posts| && s.posts[i].id == id ==> r.posts[i] == Apply(s.posts[i], data)
    ensures r.feedType == s.feedType && r.hasMore == s.hasMore && r.isLoading == s.isLoading
  {
    s.(posts := UpdateAll(s.posts, id, data))
  }

  function UpdateAll(posts: seq<FeedPost>, id: string, data: PostPatch): (r: seq<FeedPost>)
    ensures |r| == |posts|
    ensures forall i :: 0 <= i < |posts| ==> r[i] == (if posts[i].id == id then Apply(posts[i], data) else posts[i])
  {
    if |posts| == 0 then [] else [if posts[0].id == id then Apply(posts[0], data) else posts[0]] + UpdateAll(posts[1..], id, data)
  }

  /** Repeating an update that keeps the post's id changes nothing more. */
  lemma UpdatePostIdempotent(s: State, id: string, data: PostPatch)
    requires data.id.None? || data.id == Some(id)
    ensures UpdatePost(UpdatePost(s, id, data), id, data) == UpdatePost(s, id, data)
  {
    var once := UpdatePost(s, id, data);
    var twice := UpdatePost(once, id, data);
    forall i | 0 <= i < |s.posts| ensures twice.posts[i] == once.posts[i] {
      if s.posts[i].id == id {
        ApplyIdempotent(s.posts[i], data);
      }
    }
    assert twice.posts == once.posts;
  }

  /** Switching feeds empties the list and re-enables paging. */
  function SetFeedType(s: State, feedType: FeedType): (r: State)
    ensures r.feedType == feedType && r.posts == [] && r.hasMore
    ensures r.isLoading == s.isLoading
  {
    s.(feedType := feedType, posts := [], hasMore := true)
  }

  /** The first page after switching feeds is shown in full, repeats included. */
  lemma FirstPageAfterSwitchIsShownWhole(s: State, feedType: FeedType, page: seq<FeedPost>)
    ensures AddPosts(SetFeedType(s, feedType), page).posts == page
  {
    FreshOfEmpty(page);
  }

  lemma {:induction false} FreshOfEmpty(page: seq<FeedPost>)
    ensures FreshPosts([], page) == page
    decreases |page|
  {
    if |page| > 0 {
      FreshOfEmpty(page[1..]);
      assert [page[0]] + page[1..] == page;
    }
  }

  function SetPosts(s: State, posts: seq<FeedPost>): (r: State)
    ensures r.posts == posts
    ensures r.feedType == s.feedType && r.isLoading == s.isLoading && r.hasMore == s.hasMore
  {
    s.(posts := posts)
  }

  /** Loading a page that is already exactly what is shown adds nothing. */
  lemma ReloadingShownPostsAddsNothing(s: State, posts: seq<FeedPost>)
    ensures AddPosts(SetPosts(s, posts), posts) == SetPosts(s, posts)
  {
    forall p | p in posts ensures HasId(posts, p.id) {
      var i :| 0 <= i < |posts| && posts[i] == p;
    }
    NoneFreshWhenCovered(posts, posts);
    assert posts + [] == posts;
  }
}

/** XP, level, streak and unlocked achievements as the client keeps them. */
module GamificationStore {
  import opened Common
  import Gamification

  /** `lastXpDate` is the `YYYY-MM-DD` day of the last award. */
  datatype State = State(xp: int, level: int, streak: int, dailyXpEarned: int,
                         lastXpDate: Option<string>, achievements: seq<string>)

  const Initial: State := State(0, 1, 0, 0, None, [])

  /** Awards `amount` XP on day `today`. The daily tally restarts on a new day. */
  function AddXP(s: State, amount: int, today: string): (r: State)
    ensures r.xp == s.xp + amount && r.lastXpDate == Some(today)
    ensures s.lastXpDate == Some(today) ==> r.dailyXpEarned == s.dailyXpEarned + amount
    ensures s.lastXpDate != Some(today) ==> r.dailyXpEarned == amount
    ensures r.level == s.level && r.streak == s.streak && r.achievements == s.achievements
  {
    var dailyXp := if s.lastXpDate == Some(today) then s.dailyXpEarned + amount else amount;
    s.(xp := s.xp + amount, dailyXpEarned := dailyXp, lastXpDate := Some(today))
  }

  /** Two awards on the same day add up to one award of the sum. */
  lemma AddXPSameDayMerges(s: State, a: int, b: int, today: string)
    ensures AddXP(AddXP(s, a, today), b, today) == AddXP(s, a + b, today)
  {
  }

  /** The daily tally is what was earned since the day changed. */
  lemma AddXPDailyTally(s: State, amounts: seq<int>, today: string)
    requires s.lastXpDate != Some(today) && |amounts| > 0
    ensures AddAll(s, amounts, today).dailyXpEarned == Sum(amounts)
    ensures AddAll(s, amounts, today).xp == s.xp + Sum(amounts)
  {
    AddAllTally(s, amounts, today);
  }

  lemma {:induction false} AddAllTally(s: State, amounts: seq<int>, today: string)
    requires |amounts| > 0
    ensures AddAll(s, amounts, today).xp == s.xp + Sum(amounts)
    ensures AddAll(s, amounts, today).lastXpDate == Some(today)
    ensures AddAll(s, amounts, today).dailyXpEarned
            == (if s.lastXpDate == Some(today) then s.dailyXpEarned else 0) + Sum(amounts)
    decreases |amounts|
  {
    if |amounts| > 1 {
      AddAllTally(s, amounts[..|amounts| - 1], today);
    }
  }

  function Sum(xs: seq<int>): int
    decreases |xs|
  {
    if |xs| == 0 then 0 else Sum(xs[..|xs| - 1]) + xs[|xs| - 1]
  }

  /** Awards each amount in turn, all on day `today`. */
  function AddAll(s: State, amounts: seq<int>, today: string): State
    decreases |amounts|
  {
    if |amounts| == 0 then s else AddXP(AddAll(s, amounts[..|amounts| - 1], today), amounts[|amounts| - 1], today)
  }

  /** No id appears twice. */
  predicate NoDuplicates(ids: seq<string>) {
    forall i, j :: 0 <= i < j < |ids| ==> ids[i] != ids[j]
  }

  /** Records an achievement id unless it is already recorded. */
  function UnlockAchievement(s: State, id: string): (r: State)
    ensures id in r.achievements
    ensures |s.achievements| <= |r.achievements| && r.achievements[..|s.achievements|] == s.achievements
    ensures id in s.achievements ==> r.achievements == s.achievements
    ensures id !in s.achievements ==> |r.achievements| == |s.achievements| + 1
    ensures NoDuplicates(s.achievements) ==> NoDuplicates(r.achievements)
    ensures r == s.(achievements := r.achievements)
    ensures id in s.achievements ==> r == s
  {
    var ids := if id in s.achievements then s.achievements else s.achievements + [id];
    assert ids[..|s.achievements|] == s.achievements;
    s.(achievements := ids)
  }

  /** Unlocking twice is unlocking once. */
  lemma UnlockAchievementIdempotent(s: State, id: string)
    ensures UnlockAchievement(UnlockAchievement(s, id), id) == UnlockAchievement(s, id)
  {
  }

  /** Unlocks each id in turn. */
  function UnlockAll(s: State, ids: seq<string>): (r: State)
    ensures forall id :: id in s.achievements ==> id in r.achievements
    ensures forall id :: id in ids ==> id in r.achievements
    ensures r.xp == s.xp
    decreases |ids|
  {
    if |ids| == 0 then s else UnlockAll(UnlockAchievement(s, ids[0]), ids[1..])
  }

  /** After unlocking every achievement the check reported, checking again
      with the same statistics reports nothing. */
  lemma UnlockingReportedLeavesNothingNew(s: State, stats: Gamification.UserStats)
    ensures var found := Gamification.CheckNewAchievements(stats, s.achievements);
            var s' := UnlockAll(s, Gamification.Ids(found));
            Gamification.CheckNewAchievements(stats, s'.achievements) == []
  {
    var found := Gamification.CheckNewAchievements(stats, s.achievements);
    var s' := UnlockAll(s, Gamification.Ids(found));
    forall a | a in Gamification.Achievements && a.condition.Holds(stats) ensures a.id in s'.achievements {
      if a.id !in s.achievements {
        var i :| 0 <= i < |found| && found[i] == a;
        assert Gamification.Ids(found)[i] == a.id;
      }
    }
    Gamification.NoneNewWhenCovered(Gamification.Achievements, stats, s'.achievements);
  }

  function ResetDailyXP(s: State): (r: State)
    ensures r.dailyXpEarned == 0
    ensures r.xp == s.xp && r.level == s.level && r.streak == s.streak
    ensures r.lastXpDate == s.lastXpDate && r.achievements == s.achievements
  {
    s.(dailyXpEarned := 0)
  }

  function SetLevel(s: State, level: int): (r: State)
    ensures r.level == level
    ensures r.xp == s.xp && r.streak == s.streak && r.dailyXpEarned == s.dailyXpEarned
    ensures r.lastXpDate == s.lastXpDate && r.achievements == s.achievements
  {
    s.(level := level)
  }

  function SetStreak(s: State, streak: int): (r: State)
    ensures r.streak == streak
    ensures r.xp == s.xp && r.level == s.level && r.dailyXpEarned == s.dailyXpEarned
    ensures r.lastXpDate == s.lastXpDate && r.achievements == s.achievements
  {
    s.(streak := streak)
  }

  /** What the reducers keep true when every award is non-negative: the
      day's tally is part of the total, and no achievement is listed twice. */
  predicate WellFormed(s: State) {
    0 <= s.dailyXpEarned <= s.xp && NoDuplicates(s.achievements)
  }

  /** Every reducer keeps the store well formed. */
  lemma GamificationReducersKeepWellFormed(s: State, amount: int, today: string, level: int, streak: int, id: string)
    requires WellFormed(s)
    ensures WellFormed(Initial)
    ensures amount >= 0 ==> WellFormed(AddXP(s, amount, today))
    ensures WellFormed(ResetDailyXP(s)) && WellFormed(SetLevel(s, level)) && WellFormed(SetStreak(s, streak))
    ensures WellFormed(UnlockAchievement(s, id))
  {
  }

  /** After a reset the day's tally holds exactly the next award, whatever
      day it was made on. */
  lemma ResetThenAwardCountsOnlyNew(s: State, amount: int, today: string)
    ensures AddXP(ResetDailyXP(s), amount, today).dailyXpEarned == amount
    ensures AddXP(ResetDailyXP(s), amount, today).xp == s.xp + amount
  {
  }

  /** Level and streak are independent of XP awards: setting either one
      before or after an award gives the same store. */
  lemma SettersCommuteWithAddXP(s: State, amount: int, today: string, level: int, streak: int)
    ensures AddXP(SetLevel(s, level), amount, today) == SetLevel(AddXP(s, amount, today), level)
    ensures AddXP(SetStreak(s, streak), amount, today) == SetStreak(AddXP(s, amount, today), streak)
    ensures SetLevel(SetStreak(s, streak), level) == SetStreak(SetLevel(s, level), streak)
  {
  }
}

/** In-app notifications and the unread badge count. */
module NotificationStore {
  import opened Common

  datatype NotificationType = Like | Comment | Follow | Dm | Achievement | System

  /** `createdAt` is a time in milliseconds. */
  datatype Notification = Notification(id: string, kind: NotificationType, title: string, message: string,
                                       createdAt: int, read: bool)

  /** What a caller supplies; the store adds the id, the time and `read = false`. */
  datatype NewNotification = NewNotification(kind: NotificationType, title: string, message: string)

  datatype State = State(notifications: seq<Notification>, unreadCount: int)

  const Initial: State := State([], 0)

  function CountUnread(ns: seq<Notification>): (n: nat)
    ensures n <= |ns|
    decreases |ns|
  {
    if |ns| == 0 then 0 else (if ns[0].read then 0 else 1) + CountUnread(ns[1..])
  }

  /** The number of unread notifications carrying `id`. */
  function CountUnreadWithId(ns: seq<Notification>, id: string): (n: nat)
    ensures n <= CountUnread(ns)
    decreases |ns|
  {
    if |ns| == 0 then 0 else (if !ns[0].read && ns[0].id == id then 1 else 0) + CountUnreadWithId(ns[1..], id)
  }

  /** The badge shows the number of unread notifications. */
  predicate CountConsistent(s: State) {
    s.unreadCount == CountUnread(s.notifications)
  }

  /** Puts a new unread notification first. `id` and `createdAt` stand for
      the random UUID and the clock reading. */
  function AddNotification(s: State, n: NewNotification, id: string, createdAt: int): (r: State)
    ensures |r.notifications| == |s.notifications| + 1 && r.notifications[1..] == s.notifications
    ensures r.notifications[0] == Notification(id, n.kind, n.title, n.message, createdAt, false)
    ensures r.unreadCount == s.unreadCount + 1
    ensures CountConsistent(s) ==> CountConsistent(r)
  {
    var added := Notification(id, n.kind, n.title, n.message, createdAt, false);
    var ns := [added] + s.notifications;
    assert ns[1..] == s.notifications;
    State(ns, s.unreadCount + 1)
  }

  /** Marks every notification carrying `id` as read. */
  function MarkRead(ns: seq<Notification>, id: string): (r: seq<Notification>)
    ensures |r| == |ns|
    ensures forall i :: 0 <= i < |ns| ==> r[i] == (if ns[i].id == id then ns[i].(read := true) else ns[i])
    ensures CountUnread(r) + CountUnreadWithId(ns, id) == CountUnread(ns)
    decreases |ns|
  {
    if |ns| == 0 then []
    else
      var rest := MarkRead(ns[1..], id);
      var r := [if ns[0].id == id then ns[0].(read := true) else ns[0]] + rest;
      assert r[1..] == rest;
      r
  }

  /** As written: marks the matching notifications read and decrements the
      badge by one, floored at 0, whether or not anything unread matched. */
  function MarkAsRead(s: State, id: string): (r: State)
    ensures r.notifications == MarkRead(s.notifications, id)
    ensures r.unreadCount == if s.unreadCount > 0 then s.unreadCount - 1 else 0
  {
    State(MarkRead(s.notifications, id), if s.unreadCount - 1 > 0 then s.unreadCount - 1 else 0)
  }

  /** Marking an unknown id read still lowers the badge, so the badge no
      longer counts the unread notifications. */
  lemma MarkAsReadUnknownIdDrifts()
    ensures var n1 := Notification("a", Like, "t", "m", 0, false);
            var n2 := Notification("b", Like, "t", "m", 0, false);
            var s := State([n1, n2], 2);
            CountConsistent(s) && !CountConsistent(MarkAsRead(s, "c"))
  {
    var n1 := Notification("a", Like, "t", "m", 0, false);
    var n2 := Notification("b", Like, "t", "m", 0, false);
    var s := State([n1, n2], 2);
    assert CountUnread(s.notifications) == 2;
    var r := MarkAsRead(s, "c");
    assert r.notifications == s.notifications;
  }

  /** Corrected: lowers the badge by the number of unread notifications the
      call actually marked. */
  function MarkAsReadCounted(s: State, id: string): (r: State)
    ensures r.notifications == MarkRead(s.notifications, id)
    ensures CountConsistent(s) ==> CountConsistent(r)
    ensures CountUnreadWithId(s.notifications, id) == 0 ==> r.unreadCount == s.unreadCount
  {
    State(MarkRead(s.notifications, id), s.unreadCount - CountUnreadWithId(s.notifications, id))
  }

  /** When exactly one unread notification carries the id, the source and the
      corrected version agree. */
  lemma MarkAsReadAgreesOnSingleUnread(s: State, id: string)
    requires CountConsistent(s) && CountUnreadWithId(s.notifications, id) == 1
    ensures MarkAsRead(s, id) == MarkAsReadCounted(s, id)
  {
  }

  /** Marks everything read and zeroes the badge. */
  function MarkAllAsRead(s: State): (r: State)
    ensures |r.notifications| == |s.notifications|
    ensures forall i :: 0 <= i < |s.notifications| ==> r.notifications[i] == s.notifications[i].(read := true)
    ensures CountConsistent(r)
  {
    var ns := AllRead(s.notifications);
    State(ns, 0)
  }

  function AllRead(ns: seq<Notification>): (r: seq<Notification>)
    ensures |r| == |ns|
    ensures forall i :: 0 <= i < |ns| ==> r[i] == ns[i].(read := true)
    ensures CountUnread(r) == 0
    decreases |ns|
  {
    if |ns| == 0 then []
    else
      var r := [ns[0].(read := true)] + AllRead(ns[1..]);
      assert r[1..] == AllRead(ns[1..]);
      r
  }

  function ClearNotifications(s: State): (r: State)
    ensures r.notifications == [] && CountConsistent(r)
  {
    Initial
  }
}

/** The subscription tier and the free tier's daily message allowance. */
module SubscriptionStore {
  import opened Common

  datatype State = State(tier: Tier, messagesRemaining: Quota, stripeCustomerId: Option<string>)

  /** Free users get five messages a day. */
  const FreeDailyMessages: int := 5

  const Initial: State := State(Free, Finite(FreeDailyMessages), None)

  /** Premium users have an unlimited allowance. A free user's count goes down
      by one and never below 0; an unlimited count stays unlimited
      (`Infinity - 1` is `Infinity`). */
  function DecrementMessages(s: State): (r: State)
    ensures r.tier == s.tier && r.stripeCustomerId == s.stripeCustomerId
    ensures s.tier == Premium ==> r.messagesRemaining == Unlimited
    ensures s.messagesRemaining == Unlimited ==> r.messagesRemaining == Unlimited
    ensures s.tier == Free && s.messagesRemaining.Finite? ==>
              r.messagesRemaining.Finite? && r.messagesRemaining.n >= 0
              && (s.messagesRemaining.n > 0 ==> r.messagesRemaining.n == s.messagesRemaining.n - 1)
              && (s.messagesRemaining.n <= 0 ==> r.messagesRemaining.n == 0)
  {
    var remaining := match s.messagesRemaining
      case Unlimited => Unlimited
      case Finite(n) => Finite(if n - 1 > 0 then n - 1 else 0);
    s.(messagesRemaining := if s.tier == Premium then Unlimited else remaining)
  }

  /** Starts a new day: unlimited for premium, five for free. */
  function ResetDailyMessages(s: State): (r: State)
    ensures r.tier == s.tier && r.stripeCustomerId == s.stripeCustomerId
    ensures r.messagesRemaining == if s.tier == Premium then Unlimited else Finite(FreeDailyMessages)
  {
    s.(messagesRemaining := if s.tier == Premium then Unlimited else Finite(5))
  }

  function DecrementTimes(s: State, k: nat): State
    decreases k
  {
    if k == 0 then s else DecrementMessages(DecrementTimes(s, k - 1))
  }

  /** `k` decrements take a free user's count `n` down to `max(0, n - k)`. */
  lemma {:induction false} DecrementTimesFree(s: State, k: nat)
    requires s.tier == Free && s.messagesRemaining.Finite? && s.messagesRemaining.n >= 0
    ensures DecrementTimes(s, k).tier == Free
    ensures DecrementTimes(s, k).messagesRemaining
            == Finite(if s.messagesRemaining.n - k > 0 then s.messagesRemaining.n - k else 0)
    decreases k
  {
    if k > 0 {
      DecrementTimesFree(s, k - 1);
    }
  }

  /** After the daily reset a free user can send exactly five messages. */
  lemma FreeUserGetsFiveMessages(s: State, k: nat)
    requires s.tier == Free
    ensures DecrementTimes(ResetDailyMessages(s), k).messagesRemaining.Positive() <==> k < FreeDailyMessages
  {
    DecrementTimesFree(ResetDailyMessages(s), k);
  }

  /** A premium user never runs out, however many messages are sent. */
  lemma {:induction false} PremiumNeverRunsOut(s: State, k: nat)
    requires s.tier == Premium
    ensures DecrementTimes(s, k).tier == Premium
    ensures k > 0 ==> DecrementTimes(s, k).messagesRemaining == Unlimited
    decreases k
  {
    if k > 0 {
      PremiumNeverRunsOut(s, k - 1);
    }
  }

  function SetTier(s: State, tier: Tier): (r: State)
    ensures r.tier == tier
    ensures r.messagesRemaining == s.messagesRemaining && r.stripeCustomerId == s.stripeCustomerId
  {
    s.(tier := tier)
  }

  function SetMessagesRemaining(s: State, count: Quota): (r: State)
    ensures r.messagesRemaining == count
    ensures r.tier == s.tier && r.stripeCustomerId == s.stripeCustomerId
  {
    s.(messagesRemaining := count)
  }

  function SetStripeCustomerId(s: State, id: Option<string>): (r: State)
    ensures r.stripeCustomerId == id
    ensures r.tier == s.tier && r.messagesRemaining == s.messagesRemaining
  {
    s.(stripeCustomerId := id)
  }

  /** The allowance is unlimited or a non-negative count. */
  predicate AllowanceSane(s: State) {
    s.messagesRemaining.Unlimited? || s.messagesRemaining.n >= 0
  }

  /** Every reducer keeps the allowance sane; setting it directly does so
      exactly when the new value is sane. */
  lemma SubscriptionReducersKeepSane(s: State, tier: Tier, count: Quota, id: Option<string>)
    requires AllowanceSane(s)
    ensures AllowanceSane(Initial)
    ensures AllowanceSane(DecrementMessages(s)) && AllowanceSane(ResetDailyMessages(s))
    ensures AllowanceSane(SetTier(s, tier)) && AllowanceSane(SetStripeCustomerId(s, id))
    ensures AllowanceSane(SetMessagesRemaining(s, count)) <==> count.Unlimited? || count.n >= 0
  {
  }

  /** An upgrade takes effect at the next decrement or daily reset. */
  lemma UpgradeUnlocksUnlimited(s: State)
    ensures DecrementMessages(SetTier(s, Premium)).messagesRemaining == Unlimited
    ensures ResetDailyMessages(SetTier(s, Premium)).messagesRemaining == Unlimited
    ensures ResetDailyMessages(SetTier(s, Free)).messagesRemaining == Finite(FreeDailyMessages)
  {
  }

  /** A free user given `n` messages can send exactly `n` more. */
  lemma SetAllowanceThenSend(s: State, n: nat, k: nat)
    requires s.tier == Free
    ensures DecrementTimes(SetMessagesRemaining(s, Finite(n)), k).messagesRemaining.Positive() <==> k < n
  {
    DecrementTimesFree(SetMessagesRemaining(s, Finite(n)), k);
  }

  /** The customer id plays no part in the allowance. */
  lemma CustomerIdIndependent(s: State, id: Option<string>)
    ensures DecrementMessages(SetStripeCustomerId(s, id)) == SetStripeCustomerId(DecrementMessages(s), id)
    ensures ResetDailyMessages(SetStripeCustomerId(s, id)) == SetStripeCustomerId(ResetDailyMessages(s), id)
  {
  }
}
