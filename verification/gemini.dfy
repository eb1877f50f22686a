/** The pure helpers around the model call: crisis delegation, breakthrough
    detection, the coaching upsell and the rate-limit notice. */
module Gemini {
  import opened Common
  import AiPrompt

  // ----- crisis delegation -----

  /** The crisis check the chat route runs before calling the model. */
  function CheckForCrisisKeywords(message: string): (b: bool)
    ensures b <==> exists k :: k in AiPrompt.CrisisKeywords && Contains(ToLower(message), k)
  {
    AiPrompt.CheckForCrisis(message)
  }

  /** The reply sent instead of a model answer when the check fires. */
  function GetCrisisResponse(name: string): (r: string)
    ensures name != "" ==> r == name + AiPrompt.CrisisResponseBody
    ensures name == "" ==> r == "Hey" + AiPrompt.CrisisResponseBody
  {
    AiPrompt.CrisisResponse(name)
  }

  // ----- breakthrough detection -----

  /** Phrases, in lower case, that signal the user has had an insight. */
  const BreakthroughIndicators: seq<string> := [
    "never thought of it that way", "you're right", "that makes so much sense",
    "i didn't realize", "i see it now", "that hit different", "okay wow",
    "this is exactly what i needed"
  ]

  /** How many messages a conversation needs before a breakthrough is looked for. */
  const MinConversation: nat := 6

  /** How many of the latest user messages are looked at. */
  const RecentUserWindow: nat := 3

  /** The contents of the user's messages, in order. */
  function UserContents(ms: seq<Turn>): (r: seq<string>)
    ensures |r| <= |ms|
    ensures forall x :: x in r ==> exists i :: 0 <= i < |ms| && ms[i] == Turn(User, x)
    decreases |ms|
  {
    if |ms| == 0 then []
    else (if ms[0].role == User then [ms[0].content] else []) + UserContents(ms[1..])
  }

  lemma {:induction false} UserContentsConcat(a: seq<Turn>, b: seq<Turn>)
    ensures UserContents(a + b) == UserContents(a) + UserContents(b)
    decreases |a|
  {
    if |a| == 0 {
      assert a + b == b;
    } else {
      assert (a + b)[0] == a[0] && (a + b)[1..] == a[1..] + b;
      UserContentsConcat(a[1..], b);
    }
  }

  /** Whether a message, lower-cased, contains an indicator. */
  predicate SignalsBreakthrough(msg: string) {
    exists k :: k in BreakthroughIndicators && Contains(ToLower(msg), k)
  }

  /** True exactly when the conversation has at least six messages and one of
      the user's last three messages contains an indicator, ignoring case.
      The reply being generated plays no part. */
  function DetectBreakthroughMoment(ms: seq<Turn>, currentResponse: string): (b: bool)
    ensures |ms| < MinConversation ==> !b
    ensures b <==> |ms| >= MinConversation
                   && exists m :: m in AiPrompt.LastN(UserContents(ms), RecentUserWindow) && SignalsBreakthrough(m)
  {
    if |ms| < MinConversation then false
    else AnySignals(AiPrompt.LastN(UserContents(ms), RecentUserWindow))
  }

  /** `msgs.some(msg => indicators.some(i => msg.toLowerCase().includes(i)))`. */
  function AnySignals(msgs: seq<string>): (b: bool)
    ensures b <==> exists m :: m in msgs && SignalsBreakthrough(m)
    decreases |msgs|
  {
    if |msgs| == 0 then false
    else if IncludesAny(ToLower(msgs[0]), BreakthroughIndicators) then
      assert SignalsBreakthrough(msgs[0]);
      true
    else
      var rest := AnySignals(msgs[1..]);
      assert forall m :: m in msgs && m != msgs[0] ==> m in msgs[1..];
      rest
  }

  /** The reply under construction never changes the verdict. */
  lemma BreakthroughIgnoresResponse(ms: seq<Turn>, a: string, b: string)
    ensures DetectBreakthroughMoment(ms, a) == DetectBreakthroughMoment(ms, b)
  {
  }

  /** Once the conversation is long enough, a coach reply does not change the verdict. */
  lemma CoachReplyKeepsVerdict(ms: seq<Turn>, reply: string, resp: string)
    requires |ms| >= MinConversation
    ensures DetectBreakthroughMoment(ms + [Turn(Assistant, reply)], resp) == DetectBreakthroughMoment(ms, resp)
  {
    UserContentsConcat(ms, [Turn(Assistant, reply)]);
    assert UserContents([Turn(Assistant, reply)]) == [] + UserContents([]);
    assert UserContents(ms) + [] == UserContents(ms);
  }

  /** A user message containing an indicator, ending a long enough conversation, is a breakthrough. */
  lemma SignallingMessageIsBreakthrough(ms: seq<Turn>, msg: string, resp: string)
    requires |ms| + 1 >= MinConversation
    requires SignalsBreakthrough(msg)
    ensures DetectBreakthroughMoment(ms + [Turn(User, msg)], resp)
  {
    UserContentsConcat(ms, [Turn(User, msg)]);
    assert UserContents([Turn(User, msg)]) == [msg] + UserContents([]);
    var us := UserContents(ms + [Turn(User, msg)]);
    var recent := AiPrompt.LastN(us, RecentUserWindow);
    assert us[|us| - 1] == msg;
    assert recent[|recent| - 1] == msg;
  }

  /** Only the last three user messages count: earlier history is irrelevant
      when the recent part already holds three user messages. */
  lemma OlderUserMessagesIgnored(older: seq<Turn>, recent: seq<Turn>, resp: string)
    requires |recent| >= MinConversation
    requires |UserContents(recent)| >= RecentUserWindow
    ensures DetectBreakthroughMoment(older + recent, resp) == DetectBreakthroughMoment(recent, resp)
  {
    UserContentsConcat(older, recent);
    AiPrompt.LastNOfSuffix(UserContents(older), UserContents(recent), RecentUserWindow);
  }

  // ----- coaching upsell -----

  /** Which upsell text an archetype gets. */
  datatype UpsellKind = OverthinkerUpsell | GrinderUpsell | ReactorUpsell | DefaultUpsell

  /** The three archetypes with a dedicated text; any other value, the empty
      string and an absent archetype get the default. */
  function UpsellKindOf(archetype: Option<string>): (k: UpsellKind)
    ensures k == OverthinkerUpsell <==> archetype == Some("The Overthinker")
    ensures k == GrinderUpsell <==> archetype == Some("The Grinder")
    ensures k == ReactorUpsell <==> archetype == Some("The Reactor")
  {
    var a := AiPrompt.OrElse(archetype, "");
    if a == "The Overthinker" then OverthinkerUpsell
    else if a == "The Grinder" then GrinderUpsell
    else if a == "The Reactor" then ReactorUpsell
    else DefaultUpsell
  }

  /** The words that open each kind's text, right after the user's name. */
  function UpsellOpening(k: UpsellKind): string {
    match k
    case OverthinkerUpsell => ", you're doing real work here."
    case GrinderUpsell => ", you've got the work ethic."
    case ReactorUpsell => ", your energy is your asset."
    case DefaultUpsell => ", you're showing up"
  }

  const OverthinkerRest: string :=
    " The clarity you're finding in these conversations — imagine going even deeper. If you ever want to break through the overthinking pattern with a real conversation, I do 1:1 calls. No sales pitch, just genuine exploration."
  const GrinderRest: string :=
    " What you might need is direction. If you want to make sure you're building toward the right things, I offer 1:1 calls. Could be worth exploring."
  const ReactorRest: string :=
    " Learning to channel it? That's the unlock. If you want personalized strategies for that, I do 1:1 calls. Something to consider."
  const DefaultRest: string :=
    " differently now than when we started. If you want to accelerate that shift with a real conversation, I offer 1:1 calls. Just putting it on your radar."

  /** The text after the user's name for each kind: its opening, then the rest. */
  function UpsellText(k: UpsellKind): (t: string)
    ensures |UpsellOpening(k)| <= |t| && t[..|UpsellOpening(k)|] == UpsellOpening(k)
  {
    match k
    case OverthinkerUpsell => UpsellOpening(k) + OverthinkerRest
    case GrinderUpsell => UpsellOpening(k) + GrinderRest
    case ReactorUpsell => UpsellOpening(k) + ReactorRest
    case DefaultUpsell => UpsellOpening(k) + DefaultRest
  }

  /** The openings of different kinds already differ within their first ten characters. */
  lemma OpeningsDiffer(k1: UpsellKind, k2: UpsellKind)
    requires k1 != k2
    ensures |UpsellOpening(k1)| >= 10 && |UpsellOpening(k2)| >= 10
    ensures UpsellOpening(k1)[..10] != UpsellOpening(k2)[..10]
  {
    var o1, o2 := UpsellOpening(k1), UpsellOpening(k2);
    assert o1[5] != o2[5] || o1[6] != o2[6] || o1[9] != o2[9];
  }

  /** Different kinds never share a text. */
  lemma UpsellTextsDistinct(k1: UpsellKind, k2: UpsellKind)
    requires k1 != k2
    ensures UpsellText(k1) != UpsellText(k2)
  {
    OpeningsDiffer(k1, k2);
    var t1, t2 := UpsellText(k1), UpsellText(k2);
    assert t1[..10] == UpsellOpening(k1)[..10];
    assert t2[..10] == UpsellOpening(k2)[..10];
  }

  /** The upsell: the user's name as given (no fallback), then the text for the archetype. */
  function GenerateCoachingUpsell(c: AiPrompt.UserContext): (r: string)
    ensures |c.name| < |r| && r[..|c.name|] == c.name
    ensures r[|c.name|..] == UpsellText(UpsellKindOf(c.archetype))
  {
    c.name + UpsellText(UpsellKindOf(c.archetype))
  }

  /** The upsell tells the three named archetypes apart from each other and from every other archetype. */
  lemma UpsellSeparatesArchetypes(c1: AiPrompt.UserContext, c2: AiPrompt.UserContext)
    requires c1.name == c2.name
    requires UpsellKindOf(c1.archetype) != UpsellKindOf(c2.archetype)
    ensures GenerateCoachingUpsell(c1) != GenerateCoachingUpsell(c2)
  {
    var n := |c1.name|;
    UpsellTextsDistinct(UpsellKindOf(c1.archetype), UpsellKindOf(c2.archetype));
    assert GenerateCoachingUpsell(c1)[n..] != GenerateCoachingUpsell(c2)[n..];
  }

  // ----- rate-limit notice -----

  /** The notice for a free user who has just used the last message of the day. */
  function LimitReachedText(name: string): (r: string)
    ensures |r| > 0 && Contains(r, name)
  {
    MentionsName("", name, LimitReachedTail);
    assert "" + name + LimitReachedTail == name + LimitReachedTail;
    name + LimitReachedTail
  }

  const LimitReachedTail := ", we" + LimitReachedRest
  const LimitReachedRest := "'ve hit the daily limit for free accounts. Tomorrow's a new day — or Lucid Premium unlocks unlimited conversations. Either way, I'll be here."

  /** The notice for a free user with one message left. */
  function OneLeftText(name: string): (r: string)
    ensures |r| > 0 && Contains(r, name)
  {
    MentionsName(OneLeftHead, name, OneLeftTail);
    OneLeftHead + name + OneLeftTail
  }

  const OneLeftHead := "One message left today, "
  const OneLeftTail := ". Make it count. Or, you know, Premium is always an option."

  /** A text built around the name mentions the name. */
  lemma {:induction false} MentionsName(head: string, name: string, tail: string)
    ensures Contains(head + name + tail, name)
  {
    assert MatchesAt(head + name + tail, name, |head|) by {
      assert (head + name + tail)[|head|..|head| + |name|] == name;
    }
  }

  /** The notice shown with a reply, given the messages remaining: the limit
      text at zero, the one-left text at one, and nothing otherwise (an
      unlimited quota included). */
  function GetRateLimitMessage(name: string, remaining: Quota): (r: string)
    ensures r == "" <==> !(remaining == Finite(0) || remaining == Finite(1))
    ensures remaining == Finite(0) ==> r == LimitReachedText(name)
    ensures remaining == Finite(1) ==> r == OneLeftText(name)
    ensures r != "" ==> Contains(r, name)
  {
    if remaining == Finite(0) then
      LimitReachedText(name)
    else if remaining == Finite(1) then
      OneLeftText(name)
    else ""
  }
}
