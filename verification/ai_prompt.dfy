/** The prompt-building helpers of the coach: the user-context block, the
    conversation-history block, crisis keyword detection and the crisis reply. */
module AiPrompt {
  import opened Common
  import Assessment

  // ----- shared layout -----

  /** The horizontal rule framing each block: 39 box-drawing characters. */
  function Rule(): (r: string)
    ensures |r| == 39
  {
    Repeat('═', 39)
  }

  /** A block heading: two blank-line breaks, the rule, the title, the rule. */
  function BlockHeader(title: string): (r: string)
    ensures |r| > 0 && r[0] == '\n'
  {
    "\n\n" + Rule() + "\n" + title + "\n" + Rule() + "\n\n"
  }

  /** JavaScript truthiness of an optional string: present and non-empty. */
  predicate Truthy(s: Option<string>) {
    s.Some? && s.value != ""
  }

  /** `s || fallback` on an optional string. */
  function OrElse(s: Option<string>, fallback: string): (r: string)
    ensures Truthy(s) ==> r == s.value
    ensures !Truthy(s) ==> r == fallback
  {
    if Truthy(s) then s.value else fallback
  }

  // ----- user context -----

  /** What the prompt is told about the user. Every field but the name is optional. */
  datatype UserContext = UserContext(name: string, lucidScores: Option<Assessment.LucidScores>,
                                     archetype: Option<string>, currentStruggle: Option<string>,
                                     desiredOutcome: Option<string>, streak: Option<int>,
                                     level: Option<int>, xp: Option<int>, daysInApp: Option<int>)

  /** The pieces of the user-context block, each rendered by `RenderSection`. */
  datatype Section =
    | NameLine(name: string)
    | ScoresBlock(scores: Assessment.LucidScores, archetype: string)
    | StruggleLine(struggle: string)
    | OutcomeLine(outcome: string)
    | StreakLine(streak: int)
    | LevelLine(level: int, xp: int)
    | DaysLine(days: int)
  {
    /** The position of the section kind in the block. */
    function Rank(): nat {
      match this
      case NameLine(_) => 0
      case ScoresBlock(_, _) => 1
      case StruggleLine(_) => 2
      case OutcomeLine(_) => 3
      case StreakLine(_) => 4
      case LevelLine(_, _) => 5
      case DaysLine(_) => 6
    }
  }

  /** Ranks strictly increase along the list, so each kind appears at most once. */
  predicate StrictlyRanked(s: seq<Section>) {
    forall i, j :: 0 <= i < j < |s| ==> s[i].Rank() < s[j].Rank()
  }

  /** `sec` in front of `rest` when `cond` holds, otherwise `rest` alone. */
  function Before(cond: bool, sec: Section, rest: seq<Section>): (s: seq<Section>)
    requires StrictlyRanked(rest) && forall i :: 0 <= i < |rest| ==> sec.Rank() < rest[i].Rank()
    ensures StrictlyRanked(s)
    ensures forall i :: 0 <= i < |s| ==> sec.Rank() <= s[i].Rank()
    ensures forall y :: y in s <==> (cond && y == sec) || y in rest
  {
    if cond then [sec] + rest else rest
  }

  /** The scores a present `lucidScores` carries (all zero when absent; only read when present). */
  function ScoresOf(c: UserContext): Assessment.LucidScores {
    if c.lucidScores.Some? then c.lucidScores.value else Assessment.LucidScores(0, 0, 0, 0, 0, 0)
  }

  /** The optional sections, in the fixed order scores, struggle, outcome,
      streak, level, days. A section is present exactly when the condition
      the block tests for it holds; see `OptionalSectionsPresent`. */
  function OptionalSections(c: UserContext): (s: seq<Section>)
    ensures StrictlyRanked(s)
    ensures forall i :: 0 <= i < |s| ==> 1 <= s[i].Rank()
  {
    var days := Before(c.daysInApp.Some?, DaysLine(c.daysInApp.GetOr(0)), []);
    var level := Before(c.level.Some?, LevelLine(c.level.GetOr(0), OrZero(c.xp)), days);
    var streak := Before(c.streak.Some? && c.streak.value > 0, StreakLine(c.streak.GetOr(0)), level);
    var outcome := Before(Truthy(c.desiredOutcome), OutcomeLine(c.desiredOutcome.GetOr("")), streak);
    var struggle := Before(Truthy(c.currentStruggle), StruggleLine(c.currentStruggle.GetOr("")), outcome);
    Before(c.lucidScores.Some?, ScoresBlock(ScoresOf(c), OrElse(c.archetype, "Not determined")), struggle)
  }

  /** Which sections the block has, in order: the name line first (with
      `Unknown` for an empty name), then the optional sections, each kind at
      most once. */
  function ContextSections(c: UserContext): (s: seq<Section>)
    ensures |s| > 0 && s[0] == NameLine(if c.name == "" then "Unknown" else c.name)
    ensures StrictlyRanked(s)
    ensures s[1..] == OptionalSections(c)
  {
    Before(true, NameLine(OrElse(Some(c.name), "Unknown")), OptionalSections(c))
  }

  /** Each optional section is in the block exactly when the source's condition
      for it holds, and then carries the context's value: scores when
      `lucidScores` is present (archetype defaulting to `Not determined`), the
      struggle and outcome lines when those strings are non-empty, the streak
      when it is defined and positive, the level when it is defined (XP
      defaulting to 0), the days when defined. */
  lemma OptionalSectionsPresent(c: UserContext, y: Section)
    ensures y in OptionalSections(c) <==>
              (c.lucidScores.Some? && y == ScoresBlock(c.lucidScores.value, OrElse(c.archetype, "Not determined")))
              || (Truthy(c.currentStruggle) && y == StruggleLine(c.currentStruggle.value))
              || (Truthy(c.desiredOutcome) && y == OutcomeLine(c.desiredOutcome.value))
              || (c.streak.Some? && c.streak.value > 0 && y == StreakLine(c.streak.value))
              || (c.level.Some? && y == LevelLine(c.level.value, OrZero(c.xp)))
              || (c.daysInApp.Some? && y == DaysLine(c.daysInApp.value))
  {
  }

  /** The block never repeats a name line: the name appears once, first. */
  lemma NameLineOnlyFirst(c: UserContext, i: int)
    requires 0 < i < |ContextSections(c)|
    ensures !ContextSections(c)[i].NameLine?
  {
    var s := ContextSections(c);
    assert s[0].Rank() < s[i].Rank();
  }

  /** A quoted piece of user text. */
  function Quoted(s: string): string {
    "\"" + s + "\""
  }

  /** A line break followed by `rest`. */
  function NewLine(rest: string): (r: string)
    ensures |r| > 0 && r[0] == '\n'
  {
    "\n" + rest
  }

  /** The text of one section. Every section but the name line starts on a new line. */
  function RenderSection(s: Section): (r: string)
    ensures |r| > 0
    ensures !s.NameLine? ==> r[0] == '\n'
  {
    match s
    case NameLine(name) => "Name: " + name
    case ScoresBlock(sc, archetype) =>
      NewLine("\nLUCID ASSESSMENT RESULTS:\n- Overall Score: " + IntToString(sc.overall) + "/100"
              + "\n- Archetype: " + archetype
              + "\n- Self-Awareness: " + IntToString(sc.selfAwareness)
              + "\n- Resilience: " + IntToString(sc.resilience)
              + "\n- Growth Orientation: " + IntToString(sc.growthOrientation)
              + "\n- Emotional Regulation: " + IntToString(sc.emotionalRegulation)
              + "\n- Inner Dialogue: " + IntToString(sc.innerDialogue))
    case StruggleLine(t) => NewLine("\nWhat they want to change: " + Quoted(t))
    case OutcomeLine(t) => NewLine("Their desired outcome: " + Quoted(t))
    case StreakLine(n) => NewLine("\nCurrent streak: " + IntToString(n) + " days")
    case LevelLine(level, xp) => NewLine("Level: " + IntToString(level) + " (" + IntToString(xp) + " XP)")
    case DaysLine(n) => NewLine("Days in app: " + IntToString(n))
  }

  /** The sections' texts one after the other: empty exactly when there are
      no sections, and otherwise opening with the first section's text. */
  function RenderAll(ss: seq<Section>): (r: string)
    ensures |r| >= |ss|
    ensures r == "" <==> ss == []
    ensures ss != [] ==> |RenderSection(ss[0])| <= |r| && r[..|RenderSection(ss[0])|] == RenderSection(ss[0])
    decreases |ss|
  {
    if |ss| == 0 then "" else RenderSection(ss[0]) + RenderAll(ss[1..])
  }

  /** Rendering a list of sections is rendering each part in turn. */
  lemma {:induction false} RenderAllConcat(a: seq<Section>, b: seq<Section>)
    ensures RenderAll(a + b) == RenderAll(a) + RenderAll(b)
    decreases |a|
  {
    if |a| > 0 {
      assert (a + b)[0] == a[0] && (a + b)[1..] == a[1..] + b;
      RenderAllConcat(a[1..], b);
      assert RenderSection(a[0]) + (RenderAll(a[1..]) + RenderAll(b))
          == (RenderSection(a[0]) + RenderAll(a[1..])) + RenderAll(b);
    } else {
      assert a + b == b;
    }
  }

  /** The user-context block: the heading, the name line (`Unknown` for an
      empty name), then each optional section in order, each starting on a new line. */
  function FormatUserContext(c: UserContext): (r: string)
    ensures r == BlockHeader("USER CONTEXT") + "Name: " + (if c.name == "" then "Unknown" else c.name)
                 + RenderAll(OptionalSections(c))
  {
    var name := if c.name == "" then "Unknown" else c.name;
    RenderContextSections(c);
    PrefixJoined(BlockHeader("USER CONTEXT"), "Name: ", name, RenderAll(OptionalSections(c)));
    BlockHeader("USER CONTEXT") + RenderAll(ContextSections(c))
  }

  /** The rendered sections are the name line followed by the optional ones. */
  lemma RenderContextSections(c: UserContext)
    ensures RenderAll(ContextSections(c))
            == "Name: " + (if c.name == "" then "Unknown" else c.name) + RenderAll(OptionalSections(c))
  {
    var ss := ContextSections(c);
    assert RenderAll(ss) == RenderSection(ss[0]) + RenderAll(ss[1..]);
  }

  /** Prefixing a heading to three joined parts. */
  lemma PrefixJoined(h: string, a: string, b: string, t: string)
    ensures h + (a + b + t) == h + a + b + t
  {
  }

  /** After the name line, every optional section opens a new line. */
  lemma OptionalSectionsOpenLines(c: UserContext)
    ensures var tail := RenderAll(OptionalSections(c)); tail == "" || tail[0] == '\n'
  {
    var ss := OptionalSections(c);
    if ss != [] {
      assert RenderAll(ss)[0] == RenderSection(ss[0])[0];
    }
  }

  /** With nothing but a name, the block is the heading and the name line. */
  lemma NameOnlyContext(name: string)
    ensures FormatUserContext(UserContext(name, None, None, None, None, None, None, None, None))
            == BlockHeader("USER CONTEXT") + "Name: " + (if name == "" then "Unknown" else name)
  {
    var c := UserContext(name, None, None, None, None, None, None, None, None);
    assert OptionalSections(c) == [];
  }

  // ----- conversation history -----

  /** `messages.slice(-n)`: the last `n` messages, or all of them when there are fewer. */
  function LastN<T>(ms: seq<T>, n: nat): (r: seq<T>)
    ensures |r| == if |ms| < n then |ms| else n
    ensures r == ms[|ms| - |r|..]
  {
    if |ms| <= n then ms else ms[|ms| - n..]
  }

  /** Whatever precedes at least `n` items never reaches the last `n`. */
  lemma LastNOfSuffix<T>(a: seq<T>, b: seq<T>, n: nat)
    requires |b| >= n
    ensures LastN(a + b, n) == LastN(b, n)
  {
    assert (a + b)[|a + b| - n..] == b[|b| - n..];
  }

  /** The speaker label: `Them` for the user, `CC` for the coach. */
  function Speaker(r: Role): string {
    match r
    case User => "Them"
    case Assistant => "CC"
  }

  function FormatTurn(m: Turn): (r: string)
    ensures |r| > 0
  {
    Speaker(m.role) + ": " + m.content + "\n\n"
  }

  function FormatTurns(ms: seq<Turn>): string
    decreases |ms|
  {
    if |ms| == 0 then "" else FormatTurn(ms[0]) + FormatTurns(ms[1..])
  }

  /** Formatting a list of turns is formatting each part in turn. */
  lemma {:induction false} FormatTurnsConcat(a: seq<Turn>, b: seq<Turn>)
    ensures FormatTurns(a + b) == FormatTurns(a) + FormatTurns(b)
    decreases |a|
  {
    if |a| > 0 {
      assert (a + b)[0] == a[0] && (a + b)[1..] == a[1..] + b;
      FormatTurnsConcat(a[1..], b);
      assert FormatTurn(a[0]) + (FormatTurns(a[1..]) + FormatTurns(b))
          == (FormatTurn(a[0]) + FormatTurns(a[1..])) + FormatTurns(b);
    } else {
      assert a + b == b;
    }
  }

  /** How many messages the history block keeps. */
  const HistoryWindow: nat := 20

  /** The history block: empty for no messages, otherwise the heading and the
      last 20 messages, one labelled paragraph each. */
  function FormatConversationHistory(ms: seq<Turn>): (r: string)
    ensures r == "" <==> |ms| == 0
    ensures |ms| > 0 ==> r == BlockHeader("CONVERSATION HISTORY") + FormatTurns(LastN(ms, HistoryWindow))
  {
    if |ms| == 0 then "" else BlockHeader("CONVERSATION HISTORY") + FormatTurns(LastN(ms, HistoryWindow))
  }

  /** Messages older than the last 20 never reach the prompt. */
  lemma OlderMessagesIgnored(older: seq<Turn>, recent: seq<Turn>)
    requires |recent| >= HistoryWindow
    ensures FormatConversationHistory(older + recent) == FormatConversationHistory(recent)
  {
    LastNOfSuffix(older, recent, HistoryWindow);
  }

  /** Below the window, a new message adds exactly its own paragraph at the end. */
  lemma NewMessageAppendsParagraph(ms: seq<Turn>, m: Turn)
    requires 0 < |ms| < HistoryWindow
    ensures FormatConversationHistory(ms + [m]) == FormatConversationHistory(ms) + FormatTurn(m)
  {
    FormatTurnsConcat(ms, [m]);
    assert FormatTurns([m]) == FormatTurn(m) + FormatTurns([]);
  }

  // ----- crisis detection -----

  /** The phrases that divert the conversation to the crisis reply. */
  const CrisisKeywords: seq<string> := [
    "suicide", "suicidal", "kill myself", "end it all", "end my life",
    "don't want to be here", "don't want to live", "want to die", "better off dead",
    "better off without me", "self-harm", "self harm", "cutting myself", "hurt myself",
    "no reason to live", "give up on life"
  ]

  /** True exactly when the lower-cased message contains some keyword. */
  function CheckForCrisis(message: string): (b: bool)
    ensures b <==> exists k :: k in CrisisKeywords && Contains(ToLower(message), k)
  {
    IncludesAny(ToLower(message), CrisisKeywords)
  }

  /** The check ignores letter case. */
  lemma CrisisCheckIgnoresCase(message: string)
    ensures CheckForCrisis(ToUpper(message)) == CheckForCrisis(message)
    ensures CheckForCrisis(ToLower(message)) == CheckForCrisis(message)
  {
    LowerOfUpper(message);
    LowerIdempotent(message);
  }

  /** Adding text before or after a message that triggers the check keeps it triggered. */
  lemma CrisisCheckSurvivesSurroundingText(pre: string, message: string, post: string)
    requires CheckForCrisis(message)
    ensures CheckForCrisis(pre + message + post)
  {
    var k :| k in CrisisKeywords && Contains(ToLower(message), k);
    LowerConcat(pre + message, post);
    LowerConcat(pre, message);
    ContainsExtend(ToLower(pre), ToLower(message), ToLower(post), k);
  }

  // ----- crisis reply -----

  /** The fixed part of the crisis reply, after the greeting. */
  const CrisisResponseBody: string :=
    ", I hear you. What you're feeling matters, and I'm glad you said something.\n\n"
    + "I'm not equipped to be your main support here — but I want to make sure you're connected to someone who is.\n\n"
    + "**If you're in crisis:**\n"
    + "- 988 Suicide & Crisis Lifeline — call or text 988 (US)\n"
    + "- Crisis Text Line — text HOME to 741741\n"
    + "- International Association for Suicide Prevention — https://www.iasp.info/resources/Crisis_Centres/\n\n"
    + "You don't have to carry this alone. What's happening right now?"

  /** `name || 'Hey'`. */
  function Greeting(name: string): (g: string)
    ensures |g| > 0
    ensures name != "" ==> g == name
  {
    if name == "" then "Hey" else name
  }

  /** The crisis reply: the user's name (or `Hey`) and the fixed text with the hotline numbers. */
  function CrisisResponse(name: string): (r: string)
    ensures |r| == |Greeting(name)| + |CrisisResponseBody|
    ensures r[..|Greeting(name)|] == Greeting(name)
    ensures r[|Greeting(name)|..] == CrisisResponseBody
  {
    Greeting(name) + CrisisResponseBody
  }

  /** Two replies differ only in the greeting. */
  lemma CrisisResponsesShareBody(a: string, b: string)
    ensures CrisisResponse(a)[|Greeting(a)|..] == CrisisResponse(b)[|Greeting(b)|..]
  {
  }
}
