# Lucid core, modelled in Dafny

Lucid is a mindset-coaching app. Its core has these parts:

- A ten-question assessment. It scores the answers on five dimensions and names a mindset archetype.
- Gamification rules: levels from XP, streak badges, achievements and improvement XP.
- The client-side stores, whose reducers update the assessment, chat, feed, gamification, notification and subscription state.
- The text rules around the AI coach:
  - the user-context and conversation-history prompt blocks;
  - crisis-keyword detection and the crisis reply;
  - breakthrough detection, the coaching upsell and the rate-limit notice.
- The business rules inside the data-layer wrappers:
  - the daily check-in streak;
  - the free tier's message limit;
  - the like toggle;
  - the mirrored follow edges.

This project models each of them as immutable datatypes and pure functions, plus two loop-based methods, and proves what they promise.

Modules:

- `Common` (`common.dfy`): shared pieces.
  - `Option`, `Result`.
  - `Quota`: a finite count or `Infinity`.
  - `Tier`, `Role` and `Turn`.
  - ASCII case folding.
  - Substring search (`includes`).
  - Decimal rendering of integers.
- `Assessment` (`assessment.dfy`):
  - the question bank;
  - tallying the answers;
  - normalisation, done as exact integer arithmetic and proved equal to the source's real-valued formula;
  - the overall score;
  - the archetype decision table;
  - the narrative and the score bands.
- `Gamification` (`gamification.dfy`): the level table and lookup, streak badges, achievements, improvement XP and level colours.
- `AssessmentStore`, `ChatStore`, `FeedStore`, `GamificationStore`, `NotificationStore` and `SubscriptionStore` (`store.dfy`): one module per store. Each reducer is a function from state to state.
- `AiPrompt` (`ai_prompt.dfy`): the user-context block, the conversation-history block, crisis detection and the crisis reply.
- `Gemini` (`gemini.dfy`): the crisis delegations, breakthrough detection, the upsell and the rate-limit notice.
- `FirebaseRules` (`firebase_rules.dfy`): the check-in streak, the message limit, likes and follows.
  - The document store is an immutable value: maps and sets of document paths.
  - Days are integer day numbers. The check-in streak reads yesterday as `today - 1`, the day-before reading; the source's own reading is modelled separately and logged under "## Findings".
  - Each rule is one step over the store: calls do not overlap.

Modelling conventions:

- JavaScript `Infinity` is `Quota.Unlimited`.
- `x || d` on a number or string is written out: absent, zero and empty all fall back.
- Reading a question or option that does not exist throws in the source. Here it is an `Err` that names the position.
- A `updateDoc` on a missing document is an `Err` too. A write that the source makes before the failing update stays in the returned store.
- Clock readings and random ids are parameters.

## Model

| member | source | states |
|---|---|---|
| Assessment.AddOption | src/lib/assessment.ts:169-172 | a chosen option adds its weight and one count to exactly the dimensions it names; every other dimension is unchanged |
| Assessment.Tally | src/lib/assessment.ts:165-173 | accumulation succeeds iff every answer names an existing question and option; otherwise it fails at the first bad position; on success each dimension holds the total weight and count of the chosen options |
| Assessment.CountZeroIffUntouched | src/lib/assessment.ts:165-173 | a dimension's count is 0 exactly when no chosen option weights it, and never exceeds the number of answers |
| Assessment.ReplaceAnswer | src/lib/assessment.ts:165-173 | changing one answer changes a dimension's sum and count only by the old and new option's contribution |
| Assessment.Normalize | src/lib/assessment.ts:176-183 | the integer normalisation equals the real-valued formula (percentage * 0.8 + 20, clamped to [35, 95], rounded); a dimension with count 0 is 50, any other lies in [35, 95] |
| Assessment.NormalizeAgrees | src/lib/assessment.ts:176-183 | for a positive count the real-valued formula is clamp(35, 95, floor((41c + 32s) / 2c)) |
| Assessment.RoundClamp | src/lib/assessment.ts:181-182 | rounding after clamping to integer bounds equals clamping after rounding |
| Assessment.NormalizeMonotone | src/lib/assessment.ts:176-183 | for a fixed count the score never decreases as the raw sum grows |
| Assessment.Overall | src/lib/assessment.ts:195-201 | the integer overall score equals the rounded 0.2-weighted sum of the five scores |
| Assessment.OverallBetween | src/lib/assessment.ts:195-201 | the overall score lies between the lowest and the highest dimension score |
| Assessment.ScoresOf | src/lib/assessment.ts:185-201 | every dimension score is the normalisation of its totals; overall equals the rounded 0.2-weighted sum of the five scores, so it lies between their min and max |
| Assessment.Score | src/lib/assessment.ts:147-204 | scoring succeeds iff the answers are valid; unanswered dimensions score 50, others lie in [35, 95]; overall is the rounded 0.2-weighted sum and lies between min and max; an error names the first invalid position, all earlier ones being valid |
| Assessment.CalculateScores | src/lib/assessment.ts:147-204 | the same facts over the fixed ten-question bank (overall value, bounds, first invalid position with a valid prefix), and a valid answer list has at most ten entries |
| Assessment.HeavierOptionNeverLowers | src/lib/assessment.ts:165-183 | switching one answer to an option with a weight at least as high for a dimension never lowers that dimension's score |
| Assessment.SumBetween | src/lib/assessment.ts:165-173 | when every chosen weight is in [lo, hi], a dimension's sum lies between lo and hi times its count |
| Assessment.BankWeightsInRange | src/lib/assessment.ts:43-144 | the bank has ten questions and every weight a valid answer can choose is between 1 and 5 |
| Assessment.BankFloorNeverBinds | src/lib/assessment.ts:176-183 | with the real bank an answered dimension scores at least 36, so the floor of 35 is never reached |
| Assessment.PositiveWeightsScoreAtLeast36 | src/lib/assessment.ts:176-183 | with weights of at least 1, an answered dimension scores at least 36 |
| Assessment.UniformWeightScore | src/lib/assessment.ts:165-183 | when every chosen weight equals w, an answered dimension's score is the normalisation of w times its count |
| Assessment.TopWeightsScoreCeiling | src/lib/assessment.ts:176-183 | when every chosen weight is 5 and all dimensions are answered, every score is 95 |
| Assessment.TopWeightsAreIntegrated | src/lib/assessment.ts:211-213 | answers with all weights 5 covering every dimension yield The Integrated |
| Assessment.BottomWeightsScore36 | src/lib/assessment.ts:176-183 | when every chosen weight is 1 and all dimensions are answered, every score is 36 |
| Assessment.BottomWeightsAreDormant | src/lib/assessment.ts:216-220 | answers with all weights 1 covering every dimension yield The Dormant |
| Assessment.LowestDimension | src/lib/assessment.ts:238-245 | the chosen dimension has the minimum score, and every dimension earlier in the tie-break order scores strictly higher |
| Assessment.DetermineArchetype | src/lib/assessment.ts:207-246 | the first applicable rule wins, in the order Integrated, Dormant, Overthinker, Grinder, Reactor; otherwise the lowest dimension decides |
| Assessment.ArchetypeCharacterization | src/lib/assessment.ts:207-246 | for each archetype, an iff stating exactly which scores produce it |
| Assessment.FallbackDormantIffGrowthStrictlyLowest | src/lib/assessment.ts:238-245 | in the fallback, The Dormant results iff growth orientation is strictly below every other dimension |
| Assessment.GetArchetypeDetails | src/lib/assessment.ts:249-274 | the description and insight of each archetype, texts as in the source; each opens with its archetype's own first five characters |
| Assessment.ArchetypeDetailsDistinct | src/lib/assessment.ts:249-274 | no two archetypes share a description or an insight |
| Assessment.GenerateAssessmentResult | src/lib/assessment.ts:277-288 | the result exists iff the answers are valid; its scores are `calculateScores`, its archetype is the archetype of those scores, and its texts are that archetype's details |
| Assessment.GetScoreLevel | src/lib/assessment.ts:291-296 | low below 45, medium in [45, 60), high in [60, 75), excellent from 75, each as an iff |
| Assessment.ScoreLevelMonotone | src/lib/assessment.ts:291-296 | a higher score never gets a lower band |
| Gamification.LevelsWellFormed | src/lib/gamification.ts:26-37 | ten levels numbered 1..10, starting at 0 XP, with strictly increasing thresholds |
| Gamification.HighestReachedSpec | src/lib/gamification.ts:54-61 | the scan finds a level whose threshold is reached (or the first level) and no higher level is reached |
| Gamification.HighestReachedUnique | src/lib/gamification.ts:54-61 | only one index has that property, so the scan's result is determined by it |
| Gamification.HighestReachedMonotone | src/lib/gamification.ts:54-61 | more XP never reaches a lower level |
| Gamification.NegativeXPIsFirstLevel | src/lib/gamification.ts:51-61 | negative XP gives the first level |
| Gamification.LevelOfMonotone | src/lib/gamification.ts:54-61 | the level is between 1 and 10 and never decreases as XP grows |
| Gamification.ScanLevels | src/lib/gamification.ts:54-61 | the upward scan stopping at the first threshold not reached ends at the highest level reached |
| Gamification.ClampedProgress | src/lib/gamification.ts:63-75 | progress lies in [0, 100]; within a level it equals the share of the span earned times 100; it is 100 with no next threshold or at it, below 100 short of it, and 0 below the current one |
| Gamification.GetLevelFromXP | src/lib/gamification.ts:43-77 | the level is the highest reached; xp is at least its threshold and below the next one unless at level 10; below level 10 progress is (xp - current) / (next - current) * 100; progress lies in [0, 100] and is 100 iff the level is 10; negative xp gives level 1 with progress 0 |
| Gamification.GetStreakBadge | src/lib/gamification.ts:80-105 | the milestone is the largest of 7/30/90/365 not above the streak, or none; the next milestone is the smallest above it, or none; the emoji follows the tiers |
| Gamification.EmojiChangesOnlyAtTiers | src/lib/gamification.ts:98-102 | two streaks with no tier boundary (30, 90, 365) between them share the emoji |
| Gamification.EmojiChangesAtEveryTier | src/lib/gamification.ts:98-102 | the emoji does change at 30, 90 and 365 |
| Gamification.NewAchievements | src/lib/gamification.ts:262-271 | the result is, in table order, exactly the achievements not yet unlocked whose condition holds |
| Gamification.NewAchievementsCopies | src/lib/gamification.ts:262-271 | each earned entry is reported as many times as the table lists it, and no other entry at all |
| Gamification.CheckNewAchievements | src/lib/gamification.ts:262-271 | the same over the fixed table; no returned achievement is already unlocked |
| Gamification.NoneNewWhenCovered | src/lib/gamification.ts:262-271 | when every achievement whose condition holds is already unlocked, nothing is returned |
| Gamification.NothingNewAfterUnlocking | src/lib/gamification.ts:262-271 | after unlocking what a check returned, the same check with the same stats returns nothing |
| Gamification.MoreUnlockedFewerNew | src/lib/gamification.ts:262-271 | unlocking more ids can only remove achievements from the result, keeping the order |
| Gamification.CalculateScoreImprovementXP | src/lib/gamification.ts:274-277 | never negative; 0 iff the score did not rise; otherwise 50 XP per point gained |
| Gamification.ImprovementXPAdditive | src/lib/gamification.ts:274-277 | the XP for an improvement in two steps equals the XP for the whole improvement |
| Gamification.ImprovementXPMonotone | src/lib/gamification.ts:274-277 | a higher new score never earns less XP |
| Gamification.GetLevelColor | src/lib/gamification.ts:288-293 | gray below 4, indigo for 4-6, purple for 7-9, gold from 10, each as an iff |
| Gamification.LevelColorMonotone | src/lib/gamification.ts:288-293 | a higher level never gets a lower colour tier |
| Gamification.XPColorMonotone | src/lib/gamification.ts:54-61 | more XP never gives a lower colour tier |
| AssessmentStore.SetAnswer | src/lib/store.ts:61-66 | the position becomes the answer; earlier positions are kept; positions skipped past the end become holes; a negative index leaves the array alone |
| AssessmentStore.SetAnswerLastWriteWins | src/lib/store.ts:61-66 | writing a position twice is the same as writing the second answer |
| AssessmentStore.SetAnswerCommutes | src/lib/store.ts:61-66 | writes to different positions commute |
| AssessmentStore.AnsweringInOrderLeavesNoHoles | src/lib/store.ts:61-66 | answering positions 0..n-1 in order from empty gives exactly the answers, with no holes |
| AssessmentStore.SetResult | src/lib/store.ts:68 | stores the result and marks the assessment complete, keeping the answers |
| AssessmentStore.ResetAssessment | src/lib/store.ts:70 | returns to the initial state |
| AssessmentStore.AssessmentReducersKeepResultConsistent | src/lib/store.ts:56-71 | every reducer keeps "complete" equivalent to "a result is stored"; after a reset, answering in order gives exactly the answers |
| ChatStore.SetMessages | src/lib/store.ts:113-117 | replaces the messages and leaves the history in lockstep with them; conversation id, deep-dive mode and the loading and typing flags unchanged |
| ChatStore.AddMessage | src/lib/store.ts:118-121 | appends the message, and keeps an in-step history in step; conversation id, deep-dive mode and the loading and typing flags unchanged |
| ChatStore.AddMessageIsSetMessages | src/lib/store.ts:113-121 | appending after setting equals setting the extended list |
| ChatStore.ClearChat | src/lib/store.ts:126 | no messages, an empty in-step history and no current conversation; loading, typing and deep-dive flags kept |
| ChatStore.SetCurrentConversation | src/lib/store.ts:111 | sets the conversation id; messages, history and all three flags are unchanged |
| ChatStore.ToggleDeepDive | src/lib/store.ts:125 | flips deep-dive mode; every other field unchanged |
| ChatStore.ToggleDeepDiveTwice | src/lib/store.ts:125 | toggling twice restores the state |
| ChatStore.ChatReducersKeepInSync | src/lib/store.ts:104-127 | every reducer keeps the history in step with the messages; switching to a conversation and back restores the state |
| FeedStore.Apply | src/lib/store.ts:170-172 | spreading a partial post over a post: for each of the thirteen fields, the patch's value when present, the post's own value when absent |
| FeedStore.ApplyIdempotent | src/lib/store.ts:170-172 | applying the same patch twice equals applying it once |
| FeedStore.FreshPosts | src/lib/store.ts:167-169 | keeps, in incoming order, exactly the incoming posts whose id is not among the existing posts |
| FeedStore.FreshPostsCopies | src/lib/store.ts:167-169 | each new post is kept as many times as the page carries it; a post whose id is shown is kept 0 times |
| FeedStore.AddPosts | src/lib/store.ts:167-169 | existing posts are an unchanged prefix; the appended part is, in order, the incoming posts with new ids, each as many times as the page carries it; every incoming id is present afterwards; feed type, `hasMore` and the loading flag unchanged |
| FeedStore.AddPostsIdempotent | src/lib/store.ts:167-169 | adding the same page twice equals adding it once |
| FeedStore.AddPostsKeepsIdsDistinct | src/lib/store.ts:167-169 | distinct ids stay distinct when the page's own ids are distinct |
| FeedStore.AddPostsKeepsRepeatsWithinPage | src/lib/store.ts:167-169 | a page repeating a new post adds it twice: duplicates within a page are not removed |
| FeedStore.UpdatePost | src/lib/store.ts:170-172 | length kept; posts with the id are patched and all others are unchanged; feed type, `hasMore` and the loading flag unchanged |
| FeedStore.UpdatePostIdempotent | src/lib/store.ts:170-172 | a patch that keeps the id, applied twice, equals applying it once |
| FeedStore.SetFeedType | src/lib/store.ts:173 | switches the feed, empties the posts and sets has-more |
| FeedStore.FirstPageAfterSwitchIsShownWhole | src/lib/store.ts:167-173 | after a switch, the first page added is shown exactly as received |
| FeedStore.SetPosts | src/lib/store.ts:166 | replaces the posts; feed type, loading flag and has-more unchanged |
| FeedStore.ReloadingShownPostsAddsNothing | src/lib/store.ts:166-169 | adding a page that equals the posts just set adds nothing |
| GamificationStore.AddXP | src/lib/store.ts:204-218 | adds the XP; the daily tally grows on the same day and restarts on a new day; the last XP day becomes today |
| GamificationStore.AddXPSameDayMerges | src/lib/store.ts:204-218 | two awards on one day equal one award of their sum |
| GamificationStore.AddAllTally | src/lib/store.ts:204-218 | a run of awards on one day adds their sum to the XP and to the daily tally (after a restart on a new day) |
| GamificationStore.AddXPDailyTally | src/lib/store.ts:204-218 | on a new day the daily tally after a run of awards is exactly their sum |
| GamificationStore.UnlockAchievement | src/lib/store.ts:223-227 | the id is recorded afterwards; existing ids are an unchanged prefix and a new id adds exactly one entry; no duplicate is introduced; no field but the achievements changes, and a known id changes nothing at all |
| GamificationStore.UnlockAchievementIdempotent | src/lib/store.ts:223-227 | unlocking twice equals unlocking once |
| GamificationStore.UnlockAll | src/lib/store.ts:223-227 | after unlocking a list, every listed and every earlier id is recorded |
| GamificationStore.UnlockingReportedLeavesNothingNew | src/lib/store.ts:223-227 | unlocking what the achievement check reported leaves nothing new for the same stats |
| GamificationStore.ResetDailyXP | src/lib/store.ts:229 | zeroes the daily tally; xp, level, streak, last XP day and achievements unchanged |
| GamificationStore.SetLevel | src/lib/store.ts:220 | sets the level; xp, streak, daily tally, last XP day and achievements unchanged |
| GamificationStore.SetStreak | src/lib/store.ts:221 | sets the streak; xp, level, daily tally, last XP day and achievements unchanged |
| GamificationStore.GamificationReducersKeepWellFormed | src/lib/store.ts:196-230 | with non-negative awards, every reducer keeps the daily tally between 0 and the total XP and the achievement list free of duplicates |
| GamificationStore.ResetThenAwardCountsOnlyNew | src/lib/store.ts:204-229 | after a reset the daily tally is exactly the next award, on any day |
| GamificationStore.SettersCommuteWithAddXP | src/lib/store.ts:204-221 | setting the level or streak before or after an award gives the same store, and the two setters commute |
| NotificationStore.AddNotification | src/lib/store.ts:262-274 | a new unread notification goes first; the unread count rises by one; a count that matched still matches |
| NotificationStore.MarkRead | src/lib/store.ts:277-279 | marks every notification with the id read, and lowers the number of unread notifications by the number of unread ones with that id |
| NotificationStore.MarkAsRead | src/lib/store.ts:276-281 | as written: marks the id read and lowers the counter by one, floored at 0, whatever the id |
| NotificationStore.MarkAsReadUnknownIdDrifts | src/lib/store.ts:276-281 | with two unread notifications and a matching counter of 2, marking an unknown id leaves the counter at 1 while two remain unread |
| NotificationStore.MarkAsReadCounted | src/lib/store.ts:276-281 | corrected: the counter keeps matching the number of unread notifications, and an id with no unread match leaves it unchanged |
| NotificationStore.MarkAsReadAgreesOnSingleUnread | src/lib/store.ts:276-281 | when exactly one unread notification has the id, the source's reducer and the corrected one agree |
| NotificationStore.MarkAllAsRead | src/lib/store.ts:283-286 | every notification is marked read and the counter matches (0) |
| NotificationStore.ClearNotifications | src/lib/store.ts:288 | no notifications and a counter of 0 |
| SubscriptionStore.DecrementMessages | src/lib/store.ts:311-315 | premium becomes unlimited; a free count drops by one and never below 0; an unlimited count stays unlimited |
| SubscriptionStore.ResetDailyMessages | src/lib/store.ts:316-318 | unlimited for premium, 5 for free; tier and customer id unchanged |
| SubscriptionStore.DecrementTimesFree | src/lib/store.ts:311-315 | k decrements of a free count n leave max(0, n - k) |
| SubscriptionStore.FreeUserGetsFiveMessages | src/lib/store.ts:311-318 | after a daily reset, a free user has messages left exactly while fewer than 5 have been used |
| SubscriptionStore.PremiumNeverRunsOut | src/lib/store.ts:311-315 | a premium user stays unlimited however many messages are used |
| SubscriptionStore.SetTier | src/lib/store.ts:309 | sets the tier; remaining count and customer id unchanged |
| SubscriptionStore.SetMessagesRemaining | src/lib/store.ts:310 | sets the remaining count; tier and customer id unchanged |
| SubscriptionStore.SetStripeCustomerId | src/lib/store.ts:319 | sets the customer id; tier and remaining count unchanged |
| SubscriptionStore.SubscriptionReducersKeepSane | src/lib/store.ts:302-320 | every reducer keeps the allowance unlimited or non-negative; a direct set does so iff its value is |
| SubscriptionStore.UpgradeUnlocksUnlimited | src/lib/store.ts:309-318 | after an upgrade the next decrement or reset gives an unlimited allowance; after a downgrade a reset gives 5 |
| SubscriptionStore.SetAllowanceThenSend | src/lib/store.ts:310-315 | a free user given n messages has some left exactly for the first n sends |
| SubscriptionStore.CustomerIdIndependent | src/lib/store.ts:311-319 | setting the customer id commutes with decrementing and with the daily reset |
| AiPrompt.ContextSections | src/lib/ai-prompt.ts:196-233 | the name line comes first, with `Unknown` for an empty name; the section kinds then follow in a fixed order, each at most once |
| AiPrompt.OptionalSectionsPresent | src/lib/ai-prompt.ts:202-233 | scores iff `lucidScores` is present (archetype defaults to `Not determined`); struggle and outcome iff non-empty; streak iff defined and positive; level iff defined (xp defaults to 0); days iff defined |
| AiPrompt.RenderAll | src/lib/ai-prompt.ts:196-236 | the joined sections are empty iff there are none, and otherwise open with the first section's text |
| AiPrompt.RenderContextSections | src/lib/ai-prompt.ts:196-236 | the rendered sections are `Name: ` with the name or `Unknown`, then the optional sections |
| AiPrompt.FormatUserContext | src/lib/ai-prompt.ts:178-236 | the block is the heading, the name line, then the optional sections in order |
| AiPrompt.OptionalSectionsOpenLines | src/lib/ai-prompt.ts:202-233 | every optional section starts on a new line |
| AiPrompt.NameOnlyContext | src/lib/ai-prompt.ts:196-200 | with only a name, the block is the heading and `Name: ` with the name or `Unknown` |
| AiPrompt.NameLineOnlyFirst | src/lib/ai-prompt.ts:196-200 | the name line appears only at the start |
| AiPrompt.FormatConversationHistory | src/lib/ai-prompt.ts:239-259 | empty iff there are no messages; otherwise the heading and the last 20 messages, each as a `Them:` or `CC:` paragraph |
| AiPrompt.OlderMessagesIgnored | src/lib/ai-prompt.ts:245 | messages older than the last 20 do not affect the block |
| AiPrompt.NewMessageAppendsParagraph | src/lib/ai-prompt.ts:245-256 | below 20 messages, a new message appends exactly its paragraph |
| AiPrompt.FormatTurnsConcat | src/lib/ai-prompt.ts:253-256 | formatting two lists of turns one after the other concatenates their texts |
| AiPrompt.CheckForCrisis | src/lib/ai-prompt.ts:294-297 | true iff some crisis keyword occurs in the lower-cased message |
| AiPrompt.CrisisCheckIgnoresCase | src/lib/ai-prompt.ts:262-279 | upper- or lower-casing the message does not change the verdict |
| AiPrompt.CrisisCheckSurvivesSurroundingText | src/lib/ai-prompt.ts:294-297 | text added before or after a flagged message keeps it flagged |
| AiPrompt.CrisisResponse | src/lib/ai-prompt.ts:282-292 | the reply is the greeting (the name, or `Hey` when it is empty) followed by the fixed text |
| AiPrompt.CrisisResponsesShareBody | src/lib/ai-prompt.ts:282-292 | two replies differ only in the greeting |
| Gemini.CheckForCrisisKeywords | src/lib/gemini.ts:48-50 | the same verdict as the prompt-side crisis check: some keyword occurs in the lower-cased message |
| Gemini.GetCrisisResponse | src/lib/gemini.ts:53-55 | the name (or `Hey` when empty) followed by the fixed crisis text |
| Gemini.DetectBreakthroughMoment | src/lib/gemini.ts:128-153 | false below six messages; otherwise true iff one of the user's last three messages, lower-cased, contains an indicator |
| Gemini.AnySignals | src/lib/gemini.ts:150-152 | true iff some message in the list signals a breakthrough |
| Gemini.UserContentsConcat | src/lib/gemini.ts:145-148 | the user messages of two joined conversations are the user messages of each, in order |
| Gemini.BreakthroughIgnoresResponse | src/lib/gemini.ts:128-131 | the reply under construction never changes the verdict |
| Gemini.CoachReplyKeepsVerdict | src/lib/gemini.ts:145-148 | once six messages exist, an assistant message does not change the verdict |
| Gemini.SignallingMessageIsBreakthrough | src/lib/gemini.ts:145-152 | a user message with an indicator that ends a conversation of six or more is a breakthrough |
| Gemini.OlderUserMessagesIgnored | src/lib/gemini.ts:145-148 | only the last three user messages count: earlier history is irrelevant |
| Gemini.UpsellKindOf | src/lib/gemini.ts:157-166 | Overthinker, Grinder and Reactor get their own text exactly for those labels; anything else, including none, gets the default |
| Gemini.UpsellText | src/lib/gemini.ts:160-163 | each kind's text begins with its own opening words |
| Gemini.OpeningsDiffer | src/lib/gemini.ts:160-163 | the four openings differ within their first ten characters |
| Gemini.UpsellTextsDistinct | src/lib/gemini.ts:160-163 | different kinds never share a text |
| Gemini.GenerateCoachingUpsell | src/lib/gemini.ts:156-168 | the user's name as given, then the archetype's text |
| Gemini.UpsellSeparatesArchetypes | src/lib/gemini.ts:156-168 | for one name, archetypes of different kinds get different upsells |
| Gemini.LimitReachedText | src/lib/gemini.ts:172 | the limit notice is non-empty and mentions the name |
| Gemini.OneLeftText | src/lib/gemini.ts:175 | the one-left notice is non-empty and mentions the name |
| Gemini.GetRateLimitMessage | src/lib/gemini.ts:170-178 | the limit text at 0, the one-left text at 1, and "" otherwise (unlimited included), as an iff; a non-empty notice contains the name |
| FirebaseRules.NumberOr | src/lib/firebase.ts:549-551 | `x || d` on a number: the stored value unless it is absent or zero |
| FirebaseRules.NextStreakAt | src/lib/firebase.ts:542-552 | with yesterday taken from its own clock read: one more than the stored streak when the last active day equals that reading, else the stored streak (or 1) when it is today, else 1 |
| FirebaseRules.SkewedYesterdayAdvancesRepeat | src/lib/firebase.ts:528-552 | when both clock readings name today, a repeat check-in adds one to a positive streak, where the day-before reading keeps it |
| FirebaseRules.SkewedYesterdayBreaksStreak | src/lib/firebase.ts:528-552 | when both clock readings name today, a check-in the day after the last one resets the streak to 1, where the day-before reading extends it |
| FirebaseRules.NextStreak | src/lib/firebase.ts:547-552 | one more than the stored streak after a check-in yesterday; the stored streak (or 1) after one today; otherwise 1; at least 1 when the stored streak is not negative |
| FirebaseRules.SubmitDailyCheckin | src/lib/firebase.ts:528-559 | the day's answer is recorded; an existing user gets the new streak and is marked active today; a missing user is left alone; nothing else changes |
| FirebaseRules.SecondCheckinSameDayKeepsStreak | src/lib/firebase.ts:550-551 | a second check-in on the same day leaves the user document as the first left it |
| FirebaseRules.ConsecutiveCheckinsCount | src/lib/firebase.ts:547-557 | k check-ins on consecutive days after a gap give a streak of k, last active on the last day |
| FirebaseRules.ContinuingCheckins | src/lib/firebase.ts:548-549 | each check-in on the day after the last adds one to the streak |
| FirebaseRules.MissedDayResetsStreak | src/lib/firebase.ts:547-552 | a check-in after a missed day resets the streak to 1 |
| FirebaseRules.CheckMessageLimit | src/lib/firebase.ts:574-605 | may send iff messages remain; a missing user gets (false, 0); premium gets (true, unlimited) without a write; a free user's first check of a day writes count 0 and today and gets (true, 5); a later check that day gets (count < 5, max(0, 5 - count)) without a write |
| FirebaseRules.IncrementMessageCount | src/lib/firebase.ts:607-615 | fails iff the user document is missing; otherwise the count rises by one (an absent count counts as 0) and the last message day becomes today; every other document and edge is unchanged |
| FirebaseRules.FreeDailyAllowance | src/lib/firebase.ts:592-604 | after a day's first check and k counted messages, a free user may send iff k < 5, with max(0, 5 - k) remaining |
| FirebaseRules.SentCounted | src/lib/firebase.ts:607-615 | each counted message on the same day adds one to the stored count |
| FirebaseRules.PremiumAlwaysSends | src/lib/firebase.ts:584-587 | a premium user may always send, and the check writes nothing |
| FirebaseRules.LikeCommit | src/lib/firebase.ts:343-353 | the writes after an earlier read of the like document: the like ends up absent iff the read found it; the count moves by -1 iff it did and +1 otherwise; a missing post fails after the like write; nothing else changes |
| FirebaseRules.OverlappingLikesMiscount | src/lib/firebase.ts:338-354 | two like calls that both read before either writes leave one like document and a count one above the number of likes |
| FirebaseRules.LikePost | src/lib/firebase.ts:338-354 | toggles exactly this user's like on this post; the count moves by -1 or +1 to match; the result is the new liked state; a missing post fails after the like is toggled |
| FirebaseRules.LikeTwiceRestores | src/lib/firebase.ts:338-354 | toggling twice restores the whole store |
| FirebaseRules.LikeKeepsCountsMatching | src/lib/firebase.ts:338-354 | if every stored like count equals the post's number of likes, it still does after a toggle |
| FirebaseRules.MirroredPairs | src/lib/firebase.ts:389-411 | in a mirrored store, a follows b iff b lists a as a follower |
| FirebaseRules.FollowUser | src/lib/firebase.ts:389-399 | writes both edges; no other following edge and no other follower edge changes |
| FirebaseRules.UnfollowUser | src/lib/firebase.ts:401-411 | removes both edges; no other following edge and no other follower edge changes |
| FirebaseRules.FollowKeepsMirrored | src/lib/firebase.ts:389-399 | following keeps the two edge sets mirrored |
| FirebaseRules.UnfollowKeepsMirrored | src/lib/firebase.ts:401-411 | unfollowing keeps the two edge sets mirrored |
| FirebaseRules.FollowIdempotent | src/lib/firebase.ts:389-399 | following someone already followed changes nothing |
| FirebaseRules.UnfollowUndoesFollow | src/lib/firebase.ts:389-411 | unfollowing right after a new follow restores the store |

## Left out

- I/O of the data layer: Firestore reads and writes, authentication, storage uploads and server timestamps. They are modelled only through the rules above, over an in-memory store value. All other wrapper functions in `src/lib/firebase.ts`, such as posts, comments, DMs and profile reads, are plain database calls with no rule of their own.
- `generateCCResponse` in `src/lib/gemini.ts`: a network call to the model.
- The chat and payment API routes, React components, pages and the UI store: I/O and UI glue.
- Trivial setters of loading and typing flags and `hasMore` in `src/lib/store.ts`: each only assigns its argument.
- `persist`/localStorage and the zustand wiring. The stores are modelled as their reducers.
- Clocks and random ids:
  - `today` in `addXP`, the check-in, the message limit and the message count;
  - notification ids and creation times.

  Each is a parameter.
- `formatXP`, `formatDimensionName` and `getDimensionEmoji`: display formatting with no rule.
- Constants that no modelled rule reads: `DAILY_XP_CAPS`, `SAMPLE_CHALLENGES` and most of `XP_REWARDS`. Also the descriptions and icons of achievements, the system-prompt texts and the mock data.
- Floating point: level progress is computed in exact reals, and the normalisation in exact integers proved equal to the real formula. IEEE rounding is not modelled. It cannot change a result here, because no normalised value lies on a .5 boundary for ten or fewer answers.
- Unicode case folding: `toLowerCase` is modelled on ASCII letters only.
- Gamification.GetStreakBadge: the badge emoji is modelled as the enumeration `StreakEmoji` (Fire, Lightning, Diamond, Crown), one value per tier, not as the emoji string literals in `src/lib/gamification.ts:98-102`, which are stored there as mis-encoded UTF-8 byte sequences.
- The ten-dimension score shape declared in `src/lib/gemini.ts` is not used by any modelled rule; the prompt block reads the five-dimension scores.
- Gemini.GenerateCoachingUpsell: an archetype string naming an inherited object property (such as `constructor`) is given the default text. The source's object lookup would find the inherited property instead.
- FeedStore.Apply: a patch key that is present but explicitly `undefined` is treated as absent. The source's spread would set that field to `undefined`.
- AssessmentStore.SetAnswer: array indices at or above 2^32 - 1 and non-integer indices, which JavaScript stores as plain properties, are not modelled.
- `notification.data`, the optional payload of a notification, is not modelled: no reducer reads it.
- FirebaseRules.SubmitDailyCheckin: uses the day-before reading of yesterday. The source takes `today` and `yesterday` from two clock reads: the second is moved back one local calendar day and formatted in UTC. Around a daylight-saving change, or when the awaits in between cross UTC midnight, the two readings can name the same day. That behaviour is modelled only by `NextStreakAt` and logged under "## Findings".
- FirebaseRules.LikePost: modelled as one step. The source reads the like document and then makes two separate writes, with no transaction, and concurrent calls are not modelled. `OverlappingLikesMiscount` shows the effect of one overlap, and `LikeKeepsCountsMatching` holds only for calls that do not overlap.
- FirebaseRules.CheckMessageLimit: together with `IncrementMessageCount`, modelled one call at a time. The check and the increment are separate calls with no transaction, so two tabs can both pass the check at a count of 4. `FreeDailyAllowance` holds only for calls that do not overlap.
- Deleting posts and the like count of a post created after likes were written: no modelled function does either.

## Findings

| source | as written | input that shows it | evidently intended | confidence | as-written member | corrected member |
|---|---|---|---|---|---|---|
| src/lib/store.ts:276-281 | `markAsRead` always lowers `unreadCount` by one (floored at 0), even when the id is unknown or the notification was already read | two unread notifications `a` and `b` with `unreadCount` 2, then `markAsRead('c')`: the counter becomes 1 while both remain unread | the counter falls by the number of unread notifications the call actually marks read, so it keeps matching the list | not executed | NotificationStore.MarkAsReadUnknownIdDrifts | NotificationStore.MarkAsReadCounted |
| src/lib/firebase.ts:528-552 | `today` and `yesterdayStr` come from two clock reads. The second is moved back one local day with `setDate` and then formatted in UTC, and the `yesterday` test runs first. | a US-Eastern user last active on 2026-03-07 checks in at 19:30 EDT on 2026-03-08: both strings are "2026-03-08", so the streak resets to 1; a repeat check-in in the same window adds one | yesterday is the calendar day before `today`: a next-day check-in extends the streak and a same-day repeat keeps it | not executed; medium | FirebaseRules.SkewedYesterdayBreaksStreak | FirebaseRules.NextStreak |
| src/lib/firebase.ts:338-354 | `likePost` reads the like document, then writes it, then increments the post's count in a separate update, with no transaction | a double click on a post the user has not liked: both calls read "absent", both create the same like document and both add 1, so the count is one above the likes | the toggle is atomic, so the count keeps equal to the number of like documents | not executed; medium | FirebaseRules.OverlappingLikesMiscount | FirebaseRules.LikePost |
