/** The Lucid mindset assessment: a fixed bank of ten multiple-choice questions,
    a scorer that turns the chosen options into five normalised dimension scores
    and an overall score, a first-match archetype classifier, and the narrative
    table keyed by archetype. */
module Assessment {
  import opened Common

  // ----- data model -----

  /** The five measured dimensions, in the order the source declares them. */
  datatype Dimension = SelfAwareness | Resilience | GrowthOrientation | EmotionalRegulation | InnerDialogue

  /** One value per dimension. */
  datatype PerDimension<T> = PerDimension(selfAwareness: T, resilience: T, growthOrientation: T,
                                          emotionalRegulation: T, innerDialogue: T)
  {
    function Get(d: Dimension): T {
      match d
      case SelfAwareness => selfAwareness
      case Resilience => resilience
      case GrowthOrientation => growthOrientation
      case EmotionalRegulation => emotionalRegulation
      case InnerDialogue => innerDialogue
    }
  }

  /** An answer option: its text and a sparse map from dimensions to weights. */
  datatype AnswerOption = AnswerOption(text: string, scores: map<Dimension, int>)

  datatype Question = Question(id: string, question: string, options: seq<AnswerOption>)

  /** Five dimension scores and their rounded mean. */
  datatype LucidScores = LucidScores(selfAwareness: int, resilience: int, growthOrientation: int,
                                     emotionalRegulation: int, innerDialogue: int, overall: int)
  {
    function Get(d: Dimension): int {
      match d
      case SelfAwareness => selfAwareness
      case Resilience => resilience
      case GrowthOrientation => growthOrientation
      case EmotionalRegulation => emotionalRegulation
      case InnerDialogue => innerDialogue
    }
  }

  datatype Archetype = Overthinker | Grinder | Reactor | Dormant | Integrated {
    /** The label the source uses for the archetype. */
    function Label(): string {
      match this
      case Overthinker => "The Overthinker"
      case Grinder => "The Grinder"
      case Reactor => "The Reactor"
      case Dormant => "The Dormant"
      case Integrated => "The Integrated"
    }
  }

  datatype ArchetypeDetails = ArchetypeDetails(description: string, insight: string)

  datatype AssessmentResult = AssessmentResult(scores: LucidScores, archetype: Archetype,
                                               archetypeDescription: string, insight: string)

  /** Why scoring fails. The source throws a TypeError in both cases: reading
      `options` of a question that does not exist, or `scores` of an option
      that does not exist. */
  datatype AssessmentError =
    | NoSuchQuestion(questionIndex: nat)
    | NoSuchOption(questionIndex: nat, answerIndex: int)
  {
    function Position(): nat {
      questionIndex
    }
  }

  // ----- the question bank -----

  /** The ten questions, in the order they are asked. */
  const AssessmentQuestions: seq<Question> := [Q1, Q2, Q3, Q4, Q5, Q6, Q7, Q8, Q9, Q10]

  const Q1 := Question("q1", "When something goes wrong, your first thought is usually...", [
    AnswerOption("This always happens to me",
      map[SelfAwareness := 2, Resilience := 1, InnerDialogue := 1]),
    AnswerOption("What can I learn from this?",
      map[SelfAwareness := 5, GrowthOrientation := 5, Resilience := 4]),
    AnswerOption("Who's to blame?",
      map[SelfAwareness := 2, EmotionalRegulation := 2, InnerDialogue := 2]),
    AnswerOption("How do I fix it?",
      map[Resilience := 5, GrowthOrientation := 4, SelfAwareness := 3])])

  const Q2 := Question("q2", "How often do you compare yourself to others?", [
    AnswerOption("Constantly — it's exhausting",
      map[SelfAwareness := 3, InnerDialogue := 1, EmotionalRegulation := 2]),
    AnswerOption("Sometimes, but I catch myself",
      map[SelfAwareness := 5, InnerDialogue := 4, EmotionalRegulation := 4]),
    AnswerOption("Rarely — I'm focused on my own path",
      map[SelfAwareness := 5, InnerDialogue := 5, EmotionalRegulation := 5]),
    AnswerOption("Never thought about it",
      map[SelfAwareness := 2, InnerDialogue := 3, EmotionalRegulation := 3])])

  const Q3 := Question("q3", "When you set a goal, you typically...", [
    AnswerOption("Start strong, lose momentum",
      map[GrowthOrientation := 3, Resilience := 2, EmotionalRegulation := 3]),
    AnswerOption("Overthink and never start",
      map[SelfAwareness := 4, Resilience := 1, InnerDialogue := 2, EmotionalRegulation := 2]),
    AnswerOption("Grind until it's done",
      map[Resilience := 5, GrowthOrientation := 4, SelfAwareness := 2]),
    AnswerOption("Adjust as I go",
      map[Resilience := 4, GrowthOrientation := 5, EmotionalRegulation := 5, SelfAwareness := 4])])

  const Q4 := Question("q4", "Your inner voice is usually...", [
    AnswerOption("My biggest critic",
      map[InnerDialogue := 1, EmotionalRegulation := 2, SelfAwareness := 4]),
    AnswerOption("Background noise I ignore",
      map[InnerDialogue := 2, SelfAwareness := 2, EmotionalRegulation := 3]),
    AnswerOption("Supportive but realistic",
      map[InnerDialogue := 5, SelfAwareness := 5, EmotionalRegulation := 5]),
    AnswerOption("My best coach",
      map[InnerDialogue := 5, Resilience := 4, GrowthOrientation := 5])])

  const Q5 := Question("q5", "When someone criticizes you...", [
    AnswerOption("I shut down",
      map[EmotionalRegulation := 1, Resilience := 2, InnerDialogue := 2]),
    AnswerOption("I get defensive",
      map[EmotionalRegulation := 2, Resilience := 3, InnerDialogue := 2, SelfAwareness := 3]),
    AnswerOption("I consider if it's valid",
      map[EmotionalRegulation := 5, Resilience := 4, SelfAwareness := 5, GrowthOrientation := 5]),
    AnswerOption("I use it as fuel",
      map[Resilience := 5, GrowthOrientation := 5, EmotionalRegulation := 4])])

  const Q6 := Question("q6", "When facing a new challenge, you feel mostly...", [
    AnswerOption("Anxious — what if I fail?",
      map[EmotionalRegulation := 2, Resilience := 2, InnerDialogue := 2, GrowthOrientation := 3]),
    AnswerOption("Curious — this could be interesting",
      map[GrowthOrientation := 5, Resilience := 4, EmotionalRegulation := 4]),
    AnswerOption("Confident — I've handled worse",
      map[Resilience := 5, InnerDialogue := 4, EmotionalRegulation := 4]),
    AnswerOption("Overwhelmed — where do I even start?",
      map[EmotionalRegulation := 2, Resilience := 2, SelfAwareness := 3])])

  const Q7 := Question("q7", "How well do you understand why you react the way you do?", [
    AnswerOption("Very well — I know my triggers",
      map[SelfAwareness := 5, EmotionalRegulation := 4, InnerDialogue := 4]),
    AnswerOption("Sometimes it surprises me",
      map[SelfAwareness := 3, EmotionalRegulation := 3, InnerDialogue := 3]),
    AnswerOption("I react first, understand later",
      map[SelfAwareness := 2, EmotionalRegulation := 2, InnerDialogue := 2]),
    AnswerOption("I don't really think about it",
      map[SelfAwareness := 1, EmotionalRegulation := 2, InnerDialogue := 2])])

  const Q8 := Question("q8", "After a hard day, you typically...", [
    AnswerOption("Spiral into negative thoughts",
      map[EmotionalRegulation := 1, InnerDialogue := 1, Resilience := 2]),
    AnswerOption("Distract myself completely",
      map[EmotionalRegulation := 2, SelfAwareness := 2, Resilience := 3]),
    AnswerOption("Process it and let it go",
      map[EmotionalRegulation := 5, InnerDialogue := 5, Resilience := 5, SelfAwareness := 4]),
    AnswerOption("Push through — no time for feelings",
      map[Resilience := 4, EmotionalRegulation := 2, SelfAwareness := 2])])

  const Q9 := Question("q9", "When thinking about your potential, you believe...", [
    AnswerOption("I'm limited by who I am",
      map[GrowthOrientation := 1, InnerDialogue := 2, Resilience := 2]),
    AnswerOption("I could be more, but it's hard",
      map[GrowthOrientation := 3, SelfAwareness := 4, Resilience := 3]),
    AnswerOption("I'm actively becoming better",
      map[GrowthOrientation := 5, Resilience := 4, InnerDialogue := 4]),
    AnswerOption("I haven't really thought about it",
      map[GrowthOrientation := 2, SelfAwareness := 2, InnerDialogue := 2])])

  const Q10 := Question("q10", "Right now, you would describe yourself as...", [
    AnswerOption("Stuck but wanting to change",
      map[SelfAwareness := 4, GrowthOrientation := 4, Resilience := 3, InnerDialogue := 3, EmotionalRegulation := 3]),
    AnswerOption("Generally fine, could be better",
      map[SelfAwareness := 3, GrowthOrientation := 3, Resilience := 4, InnerDialogue := 4, EmotionalRegulation := 4]),
    AnswerOption("Actively growing",
      map[SelfAwareness := 5, GrowthOrientation := 5, Resilience := 5, InnerDialogue := 4, EmotionalRegulation := 4]),
    AnswerOption("Struggling significantly",
      map[SelfAwareness := 4, GrowthOrientation := 3, Resilience := 2, InnerDialogue := 2, EmotionalRegulation := 2])])

  // ----- answer validity -----

  /** Question `q` exists and has an option at index `a`. */
  predicate ValidChoice(bank: seq<Question>, q: int, a: int) {
    0 <= q < |bank| && 0 <= a < |bank[q].options|
  }

  /** The answer at position `i` names an existing question and one of its options. */
  predicate ValidAt(bank: seq<Question>, answers: seq<int>, i: int)
    requires 0 <= i < |answers|
  {
    ValidChoice(bank, i, answers[i])
  }

  /** Every answer can be looked up without a TypeError. */
  predicate ValidAnswers(bank: seq<Question>, answers: seq<int>) {
    forall i :: 0 <= i < |answers| ==> ValidChoice(bank, i, answers[i])
  }

  /** Whether answering question `q` with option `a` weights dimension `d`. */
  predicate Weighs(bank: seq<Question>, q: int, a: int, d: Dimension) {
    0 <= q < |bank| && 0 <= a < |bank[q].options| && d in bank[q].options[a].scores
  }

  /** No chosen option says anything about dimension `d`. */
  predicate Untouched(bank: seq<Question>, answers: seq<int>, d: Dimension) {
    forall i :: 0 <= i < |answers| ==> !Weighs(bank, i, answers[i], d)
  }

  /** The option chosen at position `i`. */
  function Chosen(bank: seq<Question>, answers: seq<int>, i: int): AnswerOption
    requires 0 <= i < |answers| && ValidAt(bank, answers, i)
  {
    bank[i].options[answers[i]]
  }

  // ----- accumulation -----

  /** A running weight sum and the number of answers that contributed to it. */
  datatype Acc = Acc(sum: int, count: nat)

  type Totals = PerDimension<Acc>

  const NoTotals: Totals := PerDimension(Acc(0, 0), Acc(0, 0), Acc(0, 0), Acc(0, 0), Acc(0, 0))

  function Bump(a: Acc, weights: map<Dimension, int>, d: Dimension): Acc {
    if d in weights then Acc(a.sum + weights[d], a.count + 1) else a
  }

  /** Adds one chosen option: each dimension it names gains its weight and one
      count; every other dimension is left exactly as it was. */
  function AddOption(t: Totals, o: AnswerOption): (r: Totals)
    ensures forall d :: d in o.scores ==> r.Get(d) == Acc(t.Get(d).sum + o.scores[d], t.Get(d).count + 1)
    ensures forall d :: d !in o.scores ==> r.Get(d) == t.Get(d)
  {
    PerDimension(Bump(t.selfAwareness, o.scores, SelfAwareness),
                 Bump(t.resilience, o.scores, Resilience),
                 Bump(t.growthOrientation, o.scores, GrowthOrientation),
                 Bump(t.emotionalRegulation, o.scores, EmotionalRegulation),
                 Bump(t.innerDialogue, o.scores, InnerDialogue))
  }

  /** The weight option `a` of question `q` gives dimension `d`; 0 when it names none. */
  function Weight(bank: seq<Question>, q: int, a: int, d: Dimension): int {
    if Weighs(bank, q, a, d) then bank[q].options[a].scores[d] else 0
  }

  /** The total weight the chosen options give dimension `d`. */
  function DimSum(bank: seq<Question>, answers: seq<int>, d: Dimension): int
    decreases |answers|
  {
    if |answers| == 0 then 0
    else DimSum(bank, answers[..|answers| - 1], d) + Weight(bank, |answers| - 1, answers[|answers| - 1], d)
  }

  /** How many chosen options weight dimension `d` at all. */
  function DimCount(bank: seq<Question>, answers: seq<int>, d: Dimension): nat
    decreases |answers|
  {
    if |answers| == 0 then 0
    else DimCount(bank, answers[..|answers| - 1], d) + (if Weighs(bank, |answers| - 1, answers[|answers| - 1], d) then 1 else 0)
  }

  /** The per-dimension sums and counts of `answers`, visiting questions in
      order: every dimension ends with the total weight and the number of
      chosen options that name it. The first answer that cannot be looked up
      is the error. */
  function Tally(bank: seq<Question>, answers: seq<int>): (r: Result<Totals, AssessmentError>)
    ensures r.Ok? <==> ValidAnswers(bank, answers)
    ensures r.Err? ==> r.error.Position() < |answers|
                       && ValidAnswers(bank, answers[..r.error.Position()])
                       && !ValidAt(bank, answers, r.error.Position())
    ensures r.Ok? ==> forall d :: r.value.Get(d) == Acc(DimSum(bank, answers, d), DimCount(bank, answers, d))
    decreases |answers|
  {
    if |answers| == 0 then Ok(NoTotals)
    else
      var n := |answers| - 1;
      SnocFacts(bank, answers);
      match Tally(bank, answers[..n])
      case Err(e) =>
        assert answers[..n][..e.Position()] == answers[..e.Position()];
        Err(e)
      case Ok(t) =>
        if n >= |bank| then Err(NoSuchQuestion(n))
        else if !(0 <= answers[n] < |bank[n].options|) then Err(NoSuchOption(n, answers[n]))
        else Ok(AddOption(t, bank[n].options[answers[n]]))
  }

  /** How validity splits into the earlier answers and the last one. */
  lemma SnocFacts(bank: seq<Question>, answers: seq<int>)
    requires |answers| > 0
    ensures var n := |answers| - 1;
            ValidAnswers(bank, answers) <==> ValidAnswers(bank, answers[..n]) && ValidChoice(bank, n, answers[n])
  {
    var n := |answers| - 1;
    var prefix := answers[..n];
    assert forall i :: 0 <= i < n ==> prefix[i] == answers[i];
  }

  /** A dimension has no contributions exactly when no chosen option names it,
      and it never has more contributions than there are answers. */
  lemma {:induction false} CountZeroIffUntouched(bank: seq<Question>, answers: seq<int>, d: Dimension)
    ensures DimCount(bank, answers, d) == 0 <==> Untouched(bank, answers, d)
    ensures DimCount(bank, answers, d) <= |answers|
    decreases |answers|
  {
    if |answers| > 0 {
      var n := |answers| - 1;
      var prefix := answers[..n];
      assert forall i :: 0 <= i < n ==> prefix[i] == answers[i];
      CountZeroIffUntouched(bank, prefix, d);
    }
  }

  /** Changing the answer at position `i` changes a dimension's total weight by
      the difference of the two options' weights, and its count by the
      difference of whether they name it. */
  lemma {:induction false} ReplaceAnswer(bank: seq<Question>, answers: seq<int>, i: int, j: int, d: Dimension)
    requires 0 <= i < |answers|
    ensures DimSum(bank, answers[i := j], d)
            == DimSum(bank, answers, d) - Weight(bank, i, answers[i], d) + Weight(bank, i, j, d)
    ensures DimCount(bank, answers[i := j], d)
            == DimCount(bank, answers, d) - (if Weighs(bank, i, answers[i], d) then 1 else 0)
               + (if Weighs(bank, i, j, d) then 1 else 0)
    decreases |answers|
  {
    var n := |answers| - 1;
    var updated := answers[i := j];
    if i == n {
      assert updated[..n] == answers[..n];
    } else {
      assert updated[..n] == answers[..n][i := j];
      ReplaceAnswer(bank, answers[..n], i, j, d);
    }
  }

  // ----- normalisation -----

  /** `Math.round`: the nearest integer, halves rounded up. */
  function Round(x: real): int {
    (x + 0.5).Floor
  }

  function Clamp(lo: int, hi: int, x: int): int {
    if x < lo then lo else if x > hi then hi else x
  }

  /** The normalisation as the source writes it, over exact reals: a dimension
      nobody answered is 50; otherwise the percentage of the maximum possible
      weight is compressed by `* 0.8 + 20`, clamped into [35, 95] and rounded. */
  function NormalizeReal(sum: int, count: nat): int {
    if count == 0 then 50
    else
      var maxPossible := count * 5;
      var percentage := (sum as real / maxPossible as real) * 100.0;
      Round(RealMax(35.0, RealMin(95.0, percentage * 0.8 + 20.0)))
  }

  /** The same normalisation in integer arithmetic: the compressed value is
      20 + 16 * sum / count, and rounding it is a floor division. */
  function Normalize(sum: int, count: nat): (r: int)
    ensures r == NormalizeReal(sum, count)
    ensures count == 0 ==> r == 50
    ensures count > 0 ==> 35 <= r <= 95
  {
    if count == 0 then 50
    else
      NormalizeAgrees(sum, count);
      Clamp(35, 95, (41 * count + 32 * sum) / (2 * count))
  }

  /** For a positive divisor, the floor of the real quotient is the integer quotient. */
  lemma FloorOfQuotient(p: int, q: int)
    requires q > 0
    ensures (p as real / q as real).Floor == p / q
  {
    var k, m := p / q, p % q;
    assert p == k * q + m && 0 <= m < q;
    var x := p as real / q as real;
    assert x * q as real == p as real;
    assert x == k as real + m as real / q as real;
    assert 0.0 <= m as real / q as real < 1.0;
  }

  /** Rounding commutes with clamping to integer bounds. */
  lemma RoundClamp(x: real, lo: int, hi: int)
    requires lo <= hi
    ensures Round(RealMax(lo as real, RealMin(hi as real, x))) == Clamp(lo, hi, Round(x))
  {
  }

  lemma NormalizeAgrees(sum: int, count: nat)
    requires count > 0
    ensures NormalizeReal(sum, count) == Clamp(35, 95, (41 * count + 32 * sum) / (2 * count))
  {
    var c, s := count as real, sum as real;
    var q := s / (count * 5) as real;
    assert q * (5.0 * c) == s;
    var v := q * 100.0 * 0.8 + 20.0;
    assert v * c == 16.0 * s + 20.0 * c;
    assert (v + 0.5) * (2 * count) as real == (41 * count + 32 * sum) as real;
    QuotientUnique(v + 0.5, (41 * count + 32 * sum) as real, (2 * count) as real);
    FloorOfQuotient(41 * count + 32 * sum, 2 * count);
    RoundClamp(v, 35, 95);
  }

  lemma QuotientUnique(x: real, p: real, q: real)
    requires q != 0.0 && x * q == p
    ensures x == p / q
  {
  }

  lemma MulLe(d: int, x: int, y: int)
    requires d > 0 && x <= y
    ensures d * x <= d * y
  {
    assert d * y - d * x == d * (y - x);
  }

  /** Integer division recovers the quotient of `d * q + r` when `r` is a remainder of `d`. */
  lemma DivOfRemainder(d: int, q: int, r: int)
    requires d > 0 && 0 <= r < d
    ensures (d * q + r) / d == q
  {
    var x := d * q + r;
    var q' := x / d;
    assert x == d * q' + x % d && 0 <= x % d < d;
    if q' < q {
      MulLe(d, q' + 1, q);
    } else if q' > q {
      MulLe(d, q + 1, q');
    }
  }

  lemma DivMonotone(a: int, b: int, d: int)
    requires a <= b && d > 0
    ensures a / d <= b / d
  {
    var qa, qb := a / d, b / d;
    assert a == d * qa + a % d && 0 <= a % d;
    assert b == d * qb + b % d && b % d < d;
    if qa > qb {
      MulLe(d, qb + 1, qa);
    }
  }

  /** For a fixed count, a larger weight sum never lowers a dimension's score. */
  lemma NormalizeMonotone(sum: int, sum': int, count: nat)
    requires sum <= sum'
    ensures Normalize(sum, count) <= Normalize(sum', count)
  {
    if count > 0 {
      DivMonotone(41 * count + 32 * sum, 41 * count + 32 * sum', 2 * count);
    }
  }

  // ----- the overall score -----

  function MinScore(s: LucidScores): (m: int)
    ensures forall d :: m <= s.Get(d)
    ensures exists d :: m == s.Get(d)
  {
    var a := if s.selfAwareness <= s.resilience then s.selfAwareness else s.resilience;
    var b := if a <= s.growthOrientation then a else s.growthOrientation;
    var c := if b <= s.emotionalRegulation then b else s.emotionalRegulation;
    var m := if c <= s.innerDialogue then c else s.innerDialogue;
    assert m == s.Get(SelfAwareness) || m == s.Get(Resilience) || m == s.Get(GrowthOrientation)
           || m == s.Get(EmotionalRegulation) || m == s.Get(InnerDialogue);
    m
  }

  function MaxScore(s: LucidScores): (m: int)
    ensures forall d :: s.Get(d) <= m
    ensures exists d :: m == s.Get(d)
  {
    var a := if s.selfAwareness >= s.resilience then s.selfAwareness else s.resilience;
    var b := if a >= s.growthOrientation then a else s.growthOrientation;
    var c := if b >= s.emotionalRegulation then b else s.emotionalRegulation;
    var m := if c >= s.innerDialogue then c else s.innerDialogue;
    assert m == s.Get(SelfAwareness) || m == s.Get(Resilience) || m == s.Get(GrowthOrientation)
           || m == s.Get(EmotionalRegulation) || m == s.Get(InnerDialogue);
    m
  }

  /** The overall score as the source writes it: each dimension weighted 0.2, rounded. */
  function OverallReal(sa: int, r: int, go: int, er: int, id: int): int {
    Round(sa as real * 0.2 + r as real * 0.2 + go as real * 0.2 + er as real * 0.2 + id as real * 0.2)
  }

  /** The overall score in integers: round(total / 5). A fifth of an integer is
      never exactly half-way, so this is the unambiguous nearest integer. */
  function Overall(sa: int, r: int, go: int, er: int, id: int): (o: int)
    ensures o == OverallReal(sa, r, go, er, id)
  {
    var total := sa + r + go + er + id;
    assert sa as real * 0.2 + r as real * 0.2 + go as real * 0.2 + er as real * 0.2
           + id as real * 0.2 + 0.5 == (2 * total + 5) as real / 10 as real;
    FloorOfQuotient(2 * total + 5, 10);
    (2 * total + 5) / 10
  }

  /** The overall score of five dimension scores lies between the lowest and the highest of them. */
  lemma OverallBetween(s: LucidScores)
    ensures MinScore(s) <= Overall(s.selfAwareness, s.resilience, s.growthOrientation,
                                   s.emotionalRegulation, s.innerDialogue) <= MaxScore(s)
  {
    var lo, hi := MinScore(s), MaxScore(s);
    var total := s.selfAwareness + s.resilience + s.growthOrientation + s.emotionalRegulation + s.innerDialogue;
    assert s.selfAwareness == s.Get(SelfAwareness) && s.resilience == s.Get(Resilience)
           && s.growthOrientation == s.Get(GrowthOrientation)
           && s.emotionalRegulation == s.Get(EmotionalRegulation) && s.innerDialogue == s.Get(InnerDialogue);
    assert 5 * lo <= total <= 5 * hi;
    DivMonotone(10 * lo + 5, 2 * total + 5, 10);
    DivMonotone(2 * total + 5, 10 * hi + 5, 10);
  }

  // ----- scoring -----

  function ScoresOf(t: Totals): (s: LucidScores)
    ensures forall d :: s.Get(d) == Normalize(t.Get(d).sum, t.Get(d).count)
    ensures s.overall == OverallReal(s.selfAwareness, s.resilience, s.growthOrientation,
                                     s.emotionalRegulation, s.innerDialogue)
    ensures MinScore(s) <= s.overall <= MaxScore(s)
  {
    var sa := Normalize(t.selfAwareness.sum, t.selfAwareness.count);
    var r := Normalize(t.resilience.sum, t.resilience.count);
    var go := Normalize(t.growthOrientation.sum, t.growthOrientation.count);
    var er := Normalize(t.emotionalRegulation.sum, t.emotionalRegulation.count);
    var id := Normalize(t.innerDialogue.sum, t.innerDialogue.count);
    var s := LucidScores(sa, r, go, er, id, Overall(sa, r, go, er, id));
    OverallBetween(s);
    s
  }

  /** Scoring against a question bank: a dimension no chosen option weights
      scores exactly 50, every other dimension lies in [35, 95], and the overall
      score lies between the lowest and highest dimension. An answer that cannot
      be looked up is an error naming the first such position; nothing partial
      is returned. */
  function Score(bank: seq<Question>, answers: seq<int>): (r: Result<LucidScores, AssessmentError>)
    ensures r.Ok? <==> ValidAnswers(bank, answers)
    ensures r.Err? ==> r.error.Position() < |answers| && ValidAnswers(bank, answers[..r.error.Position()])
                       && !ValidAt(bank, answers, r.error.Position())
    ensures r.Ok? ==> forall d :: r.value.Get(d) == Normalize(DimSum(bank, answers, d), DimCount(bank, answers, d))
    ensures r.Ok? ==> forall d :: Untouched(bank, answers, d) ==> r.value.Get(d) == 50
    ensures r.Ok? ==> forall d :: !Untouched(bank, answers, d) ==> 35 <= r.value.Get(d) <= 95
    ensures r.Ok? ==> r.value.overall == OverallReal(r.value.selfAwareness, r.value.resilience, r.value.growthOrientation,
                                                     r.value.emotionalRegulation, r.value.innerDialogue)
    ensures r.Ok? ==> MinScore(r.value) <= r.value.overall <= MaxScore(r.value)
  {
    match Tally(bank, answers)
    case Err(e) => Err(e)
    case Ok(t) =>
      CountsAndUntouched(bank, answers);
      Ok(ScoresOf(t))
  }

  lemma CountsAndUntouched(bank: seq<Question>, answers: seq<int>)
    ensures forall d :: DimCount(bank, answers, d) == 0 <==> Untouched(bank, answers, d)
  {
    forall d ensures DimCount(bank, answers, d) == 0 <==> Untouched(bank, answers, d) {
      CountZeroIffUntouched(bank, answers, d);
    }
  }

  /** `calculateScores`: scoring against the fixed ten-question bank. Valid
      answers are at most ten, each naming one of its question's options. */
  function CalculateScores(answers: seq<int>): (r: Result<LucidScores, AssessmentError>)
    ensures r.Ok? <==> ValidAnswers(AssessmentQuestions, answers)
    ensures r.Ok? ==> |answers| <= |AssessmentQuestions|
    ensures r.Ok? ==> forall d :: r.value.Get(d) == Normalize(DimSum(AssessmentQuestions, answers, d), DimCount(AssessmentQuestions, answers, d))
    ensures r.Ok? ==> forall d :: Untouched(AssessmentQuestions, answers, d) ==> r.value.Get(d) == 50
    ensures r.Ok? ==> forall d :: !Untouched(AssessmentQuestions, answers, d) ==> 35 <= r.value.Get(d) <= 95
    ensures r.Ok? ==> r.value.overall == OverallReal(r.value.selfAwareness, r.value.resilience, r.value.growthOrientation,
                                                     r.value.emotionalRegulation, r.value.innerDialogue)
    ensures r.Ok? ==> MinScore(r.value) <= r.value.overall <= MaxScore(r.value)
    ensures r.Err? ==> r.error.Position() < |answers| && ValidAnswers(AssessmentQuestions, answers[..r.error.Position()])
                       && !ValidAt(AssessmentQuestions, answers, r.error.Position())
  {
    var r := Score(AssessmentQuestions, answers);
    assert r.Ok? && |answers| > 0 ==> ValidAt(AssessmentQuestions, answers, |answers| - 1);
    r
  }

  /** Holding the other answers fixed, choosing for one question an option that
      gives dimension `d` at least as much weight (both options weighting `d`)
      never lowers `d`'s score. */
  lemma HeavierOptionNeverLowers(bank: seq<Question>, answers: seq<int>, i: int, j: int, d: Dimension)
    requires ValidAnswers(bank, answers) && 0 <= i < |answers|
    requires Weighs(bank, i, answers[i], d) && Weighs(bank, i, j, d)
    requires bank[i].options[answers[i]].scores[d] <= bank[i].options[j].scores[d]
    ensures Score(bank, answers[i := j]).Ok?
    ensures Score(bank, answers).value.Get(d) <= Score(bank, answers[i := j]).value.Get(d)
  {
    var updated := answers[i := j];
    assert ValidAnswers(bank, updated) by {
      forall k | 0 <= k < |updated| ensures ValidChoice(bank, k, updated[k]) {
        assert ValidChoice(bank, k, answers[k]);
      }
    }
    ReplaceAnswer(bank, answers, i, j, d);
    NormalizeMonotone(DimSum(bank, answers, d), DimSum(bank, updated, d), DimCount(bank, answers, d));
  }

  // ----- weight ranges -----

  /** Every weight a chosen option gives lies in [lo, hi]. */
  predicate ChosenWeightsBetween(bank: seq<Question>, answers: seq<int>, lo: int, hi: int) {
    forall i, d :: 0 <= i < |answers| && Weighs(bank, i, answers[i], d) ==> lo <= Weight(bank, i, answers[i], d) <= hi
  }

  /** With every chosen weight in [lo, hi], a dimension's total weight lies
      between lo and hi times its count. */
  lemma {:induction false} SumBetween(bank: seq<Question>, answers: seq<int>, lo: int, hi: int, d: Dimension)
    requires ChosenWeightsBetween(bank, answers, lo, hi)
    ensures lo * DimCount(bank, answers, d) <= DimSum(bank, answers, d) <= hi * DimCount(bank, answers, d)
    decreases |answers|
  {
    if |answers| > 0 {
      var n := |answers| - 1;
      var prefix := answers[..n];
      assert ChosenWeightsBetween(bank, prefix, lo, hi) by {
        assert forall i :: 0 <= i < n ==> prefix[i] == answers[i];
      }
      SumBetween(bank, prefix, lo, hi, d);
      var w := Weight(bank, n, answers[n], d);
      var k := if Weighs(bank, n, answers[n], d) then 1 else 0;
      assert Weighs(bank, n, answers[n], d) ==> lo <= w <= hi;
      BoundStep(lo, hi, DimCount(bank, prefix, d), DimSum(bank, prefix, d), k, w);
    }
  }

  /** One more contribution of weight `w` in [lo, hi] (or none, with `w` zero) keeps the bounds. */
  lemma BoundStep(lo: int, hi: int, c: int, s: int, k: int, w: int)
    requires lo * c <= s <= hi * c
    requires k == 0 || k == 1
    requires k == 1 ==> lo <= w <= hi
    requires k == 0 ==> w == 0
    ensures lo * (c + k) <= s + w <= hi * (c + k)
  {
    if k == 1 {
      assert lo * (c + 1) == lo * c + lo;
      assert hi * (c + 1) == hi * c + hi;
    }
  }

  /** Every weight each option of a question gives lies in [1, 5]. */
  predicate OptionWeightsInRange(o: AnswerOption) {
    forall d :: d in o.scores ==> 1 <= o.scores[d] <= 5
  }

  /** A question of the fixed bank: four options, every weight in [1, 5]. */
  predicate QuestionWellFormed(q: Question) {
    |q.options| == 4 && forall a :: 0 <= a < |q.options| ==> OptionWeightsInRange(q.options[a])
  }

  /** Every question of the bank is well formed; each question is checked
      by a lemma of its own, so that no proof unfolds the whole bank. */
  lemma QuestionWellFormedAt(k: int)
    requires 0 <= k < 10
    ensures k < |AssessmentQuestions| && QuestionWellFormed(AssessmentQuestions[k])
  {
    if k == 0 { Q1WellFormed(); }
    else if k == 1 { Q2WellFormed(); }
    else if k == 2 { Q3WellFormed(); }
    else if k == 3 { Q4WellFormed(); }
    else if k == 4 { Q5WellFormed(); }
    else if k == 5 { Q6WellFormed(); }
    else if k == 6 { Q7WellFormed(); }
    else if k == 7 { Q8WellFormed(); }
    else if k == 8 { Q9WellFormed(); }
    else { Q10WellFormed(); }
  }

  lemma Q1WellFormed()
    ensures QuestionWellFormed(Q1)
  {
  }

  lemma Q2WellFormed()
    ensures QuestionWellFormed(Q2)
  {
  }

  lemma Q3WellFormed()
    ensures QuestionWellFormed(Q3)
  {
  }

  lemma Q4WellFormed()
    ensures QuestionWellFormed(Q4)
  {
  }

  lemma Q5WellFormed()
    ensures QuestionWellFormed(Q5)
  {
  }

  lemma Q6WellFormed()
    ensures QuestionWellFormed(Q6)
  {
  }

  lemma Q7WellFormed()
    ensures QuestionWellFormed(Q7)
  {
  }

  lemma Q8WellFormed()
    ensures QuestionWellFormed(Q8)
  {
  }

  lemma Q9WellFormed()
    ensures QuestionWellFormed(Q9)
  {
  }

  lemma Q10WellFormed()
    ensures QuestionWellFormed(Q10)
  {
  }

  /** The fixed bank has ten questions, each with four options weighting
      dimensions between 1 and 5, so every valid answer list weights every
      dimension it touches by 1 to 5. */
  lemma BankWeightsInRange(answers: seq<int>)
    requires ValidAnswers(AssessmentQuestions, answers)
    ensures |AssessmentQuestions| == 10
    ensures ChosenWeightsBetween(AssessmentQuestions, answers, 1, 5)
  {
    var bank := AssessmentQuestions;
    forall i, e | 0 <= i < |answers| && Weighs(bank, i, answers[i], e)
      ensures 1 <= Weight(bank, i, answers[i], e) <= 5
    {
      QuestionWellFormedAt(i);
      assert OptionWeightsInRange(bank[i].options[answers[i]]);
    }
  }

  /** A dimension whose every contribution weighs at least 1 scores at least 36. */
  lemma NormalizeAtLeast36(sum: int, count: nat)
    requires 0 < count <= sum
    ensures Normalize(sum, count) >= 36
  {
    var c := count;
    MulLe(32, c, sum);
    DivMonotone(2 * c * 36 + c, 41 * c + 32 * sum, 2 * c);
    DivOfRemainder(2 * c, 36, c);
  }

  /** A dimension whose every contribution weighs 5 scores the ceiling 95. */
  lemma NormalizeAllFive(count: nat)
    requires count > 0
    ensures Normalize(5 * count, count) == 95
  {
    var c := count;
    assert 41 * c + 32 * (5 * c) == 2 * c * 100 + c;
    DivOfRemainder(2 * c, 100, c);
  }

  /** A dimension whose every contribution weighs 1 scores 36. */
  lemma NormalizeAllOne(count: nat)
    requires count > 0
    ensures Normalize(count, count) == 36
  {
    var c := count;
    assert 41 * c + 32 * c == 2 * c * 36 + c;
    DivOfRemainder(2 * c, 36, c);
  }

  /** When every chosen weight is at least 1, an answered dimension scores at
      least 36, so the floor of 35 never decides. */
  lemma PositiveWeightsScoreAtLeast36(bank: seq<Question>, answers: seq<int>, d: Dimension)
    requires ValidAnswers(bank, answers)
    requires ChosenWeightsBetween(bank, answers, 1, 5)
    requires !Untouched(bank, answers, d)
    ensures Score(bank, answers).value.Get(d) >= 36
  {
    SumBetween(bank, answers, 1, 5, d);
    CountZeroIffUntouched(bank, answers, d);
    NormalizeAtLeast36(DimSum(bank, answers, d), DimCount(bank, answers, d));
  }

  /** With the fixed bank every answered dimension scores at least 36. */
  lemma BankFloorNeverBinds(answers: seq<int>, d: Dimension)
    requires ValidAnswers(AssessmentQuestions, answers)
    requires !Untouched(AssessmentQuestions, answers, d)
    ensures CalculateScores(answers).value.Get(d) >= 36
  {
    BankWeightsInRange(answers);
    PositiveWeightsScoreAtLeast36(AssessmentQuestions, answers, d);
  }

  /** When every chosen weight is `w`, an answered dimension's score is the
      normalisation of `w` times its count. */
  lemma UniformWeightScore(bank: seq<Question>, answers: seq<int>, w: int, d: Dimension)
    requires ValidAnswers(bank, answers)
    requires ChosenWeightsBetween(bank, answers, w, w)
    requires !Untouched(bank, answers, d)
    ensures DimCount(bank, answers, d) > 0
    ensures Score(bank, answers).value.Get(d) == Normalize(w * DimCount(bank, answers, d), DimCount(bank, answers, d))
  {
    SumBetween(bank, answers, w, w, d);
    CountZeroIffUntouched(bank, answers, d);
  }

  /** When every dimension is answered and every chosen weight is 5, every
      dimension scores 95. */
  lemma TopWeightsScoreCeiling(bank: seq<Question>, answers: seq<int>)
    requires ValidAnswers(bank, answers)
    requires ChosenWeightsBetween(bank, answers, 5, 5)
    requires forall d :: !Untouched(bank, answers, d)
    ensures forall d :: Score(bank, answers).value.Get(d) == 95
  {
    forall d ensures Score(bank, answers).value.Get(d) == 95 {
      UniformWeightScore(bank, answers, 5, d);
      NormalizeAllFive(DimCount(bank, answers, d));
    }
  }

  /** When every dimension is answered and every chosen weight is 5, the
      profile is Integrated. */
  lemma TopWeightsAreIntegrated(bank: seq<Question>, answers: seq<int>)
    requires ValidAnswers(bank, answers)
    requires ChosenWeightsBetween(bank, answers, 5, 5)
    requires forall d :: !Untouched(bank, answers, d)
    ensures DetermineArchetype(Score(bank, answers).value) == Integrated
  {
    TopWeightsScoreCeiling(bank, answers);
    var s := Score(bank, answers).value;
    assert s.Get(SelfAwareness) == s.Get(Resilience) == s.Get(GrowthOrientation)
        == s.Get(EmotionalRegulation) == s.Get(InnerDialogue) == 95;
    assert AllAtLeast(s, 70);
  }

  /** When every dimension is answered and every chosen weight is 1, every
      dimension scores 36. */
  lemma BottomWeightsScore36(bank: seq<Question>, answers: seq<int>)
    requires ValidAnswers(bank, answers)
    requires ChosenWeightsBetween(bank, answers, 1, 1)
    requires forall d :: !Untouched(bank, answers, d)
    ensures forall d :: Score(bank, answers).value.Get(d) == 36
  {
    forall d ensures Score(bank, answers).value.Get(d) == 36 {
      UniformWeightScore(bank, answers, 1, d);
      NormalizeAllOne(DimCount(bank, answers, d));
    }
  }

  /** When every dimension is answered and every chosen weight is 1, the
      profile is Dormant. */
  lemma BottomWeightsAreDormant(bank: seq<Question>, answers: seq<int>)
    requires ValidAnswers(bank, answers)
    requires ChosenWeightsBetween(bank, answers, 1, 1)
    requires forall d :: !Untouched(bank, answers, d)
    ensures DetermineArchetype(Score(bank, answers).value) == Dormant
  {
    BottomWeightsScore36(bank, answers);
    var s := Score(bank, answers).value;
    assert s.Get(SelfAwareness) == s.Get(Resilience) == s.Get(GrowthOrientation)
        == s.Get(EmotionalRegulation) == s.Get(InnerDialogue) == 36;
    assert AllBelow(s, 55);
  }

  // ----- archetype classification -----

  predicate AllAtLeast(s: LucidScores, bound: int) {
    s.selfAwareness >= bound && s.resilience >= bound && s.growthOrientation >= bound
    && s.emotionalRegulation >= bound && s.innerDialogue >= bound
  }

  predicate AllBelow(s: LucidScores, bound: int) {
    s.selfAwareness < bound && s.resilience < bound && s.growthOrientation < bound
    && s.emotionalRegulation < bound && s.innerDialogue < bound
  }

  /** High awareness with low regulation. */
  predicate OverthinkerRule(s: LucidScores) {
    s.selfAwareness >= 65 && s.emotionalRegulation < 55
  }

  /** High resilience with low awareness. */
  predicate GrinderRule(s: LucidScores) {
    s.resilience >= 65 && s.selfAwareness < 55
  }

  /** High growth orientation with low regulation. */
  predicate ReactorRule(s: LucidScores) {
    s.growthOrientation >= 65 && s.emotionalRegulation < 55
  }

  /** None of the five explicit rules applies, so the fallback decides. */
  predicate NoRuleApplies(s: LucidScores) {
    !AllAtLeast(s, 70) && !AllBelow(s, 55) && !OverthinkerRule(s) && !GrinderRule(s) && !ReactorRule(s)
  }

  /** Position of a dimension in the fallback's tie-break order. */
  function TieRank(d: Dimension): nat {
    match d
    case EmotionalRegulation => 0
    case SelfAwareness => 1
    case Resilience => 2
    case InnerDialogue => 3
    case GrowthOrientation => 4
  }

  /** The lowest-scoring dimension; among equally low ones, the earliest in the
      order emotional regulation, self-awareness, resilience, inner dialogue,
      growth orientation. */
  function LowestDimension(s: LucidScores): (d: Dimension)
    ensures forall e :: s.Get(d) <= s.Get(e)
    ensures forall e :: TieRank(e) < TieRank(d) ==> s.Get(d) < s.Get(e)
  {
    var m := MinScore(s);
    if s.emotionalRegulation == m then EmotionalRegulation
    else if s.selfAwareness == m then SelfAwareness
    else if s.resilience == m then Resilience
    else if s.innerDialogue == m then InnerDialogue
    else GrowthOrientation
  }

  /** The fallback table from the lowest dimension to an archetype. */
  function FallbackArchetype(d: Dimension): Archetype {
    match d
    case EmotionalRegulation => Reactor
    case SelfAwareness => Grinder
    case Resilience => Overthinker
    case InnerDialogue => Overthinker
    case GrowthOrientation => Dormant
  }

  /** `determineArchetype`: the rules are tried in order Integrated, Dormant,
      Overthinker, Grinder, Reactor, and the first that applies wins; when none
      applies, the lowest dimension picks the archetype. */
  function DetermineArchetype(s: LucidScores): (a: Archetype)
    ensures AllAtLeast(s, 70) ==> a == Integrated
    ensures !AllAtLeast(s, 70) && AllBelow(s, 55) ==> a == Dormant
    ensures !AllAtLeast(s, 70) && !AllBelow(s, 55) && OverthinkerRule(s) ==> a == Overthinker
    ensures !AllAtLeast(s, 70) && !AllBelow(s, 55) && !OverthinkerRule(s) && GrinderRule(s) ==> a == Grinder
    ensures (!AllAtLeast(s, 70) && !AllBelow(s, 55) && !OverthinkerRule(s) && !GrinderRule(s)
             && ReactorRule(s)) ==> a == Reactor
    ensures NoRuleApplies(s) ==> a == FallbackArchetype(LowestDimension(s))
  {
    var sa, r, go, er, id := s.selfAwareness, s.resilience, s.growthOrientation,
                             s.emotionalRegulation, s.innerDialogue;
    if sa >= 70 && r >= 70 && go >= 70 && er >= 70 && id >= 70 then Integrated
    else if sa < 55 && r < 55 && go < 55 && er < 55 && id < 55 then Dormant
    else if sa >= 65 && er < 55 then Overthinker
    else if r >= 65 && sa < 55 then Grinder
    else if go >= 65 && er < 55 then Reactor
    else
      var min := MinScore(s);
      if min == er then Reactor
      else if min == sa then Grinder
      else if min == r then Overthinker
      else if min == id then Overthinker
      else Dormant
  }

  /** Each archetype is chosen exactly when its own rule, or the fallback on its
      dimensions, decides; in particular only uniformly strong profiles are
      Integrated, and the fallback yields Dormant only when growth orientation is
      strictly the lowest dimension. */
  lemma ArchetypeCharacterization(s: LucidScores)
    ensures DetermineArchetype(s) == Integrated <==> AllAtLeast(s, 70)
    ensures DetermineArchetype(s) == Dormant
            <==> AllBelow(s, 55) || (NoRuleApplies(s) && LowestDimension(s) == GrowthOrientation)
    ensures DetermineArchetype(s) == Overthinker
            <==> OverthinkerRule(s)
                 || (NoRuleApplies(s) && LowestDimension(s) in {Resilience, InnerDialogue})
    ensures DetermineArchetype(s) == Grinder
            <==> GrinderRule(s) || (NoRuleApplies(s) && LowestDimension(s) == SelfAwareness)
    ensures DetermineArchetype(s) == Reactor
            <==> (ReactorRule(s) && !OverthinkerRule(s) && !GrinderRule(s))
                 || (NoRuleApplies(s) && LowestDimension(s) == EmotionalRegulation)
  {
  }

  /** The fallback returns Dormant exactly when growth orientation is strictly
      below every other dimension. */
  lemma FallbackDormantIffGrowthStrictlyLowest(s: LucidScores)
    requires NoRuleApplies(s)
    ensures DetermineArchetype(s) == Dormant
            <==> forall e :: e != GrowthOrientation ==> s.growthOrientation < s.Get(e)
  {
    var d := LowestDimension(s);
    if d == GrowthOrientation {
      forall e | e != GrowthOrientation ensures s.growthOrientation < s.Get(e) {
        assert TieRank(e) < TieRank(GrowthOrientation);
      }
    } else {
      assert s.Get(d) <= s.growthOrientation;
    }
  }

  // ----- narrative -----

  /** The first five characters of each archetype's description. */
  function DescriptionHead(a: Archetype): string {
    match a
    case Overthinker => "High "
    case Grinder => "You p"
    case Reactor => "You w"
    case Dormant => "There"
    case Integrated => "Rare "
  }

  /** The first five characters of each archetype's insight. */
  function InsightHead(a: Archetype): string {
    match a
    case Overthinker => "You s"
    case Grinder => "You c"
    case Reactor => "Your "
    case Dormant => "You'r"
    case Integrated => "You'v"
  }

  /** The text of each archetype's description and insight after its first five characters. */
  const OverthinkerDescriptionRest: string :=
    "awareness, but you get stuck in your head. You see everything clearly — except the exit from your own mind."
  const OverthinkerInsightRest: string :=
    "ee everything clearly — except the exit from your own head."
  const GrinderDescriptionRest: string :=
    "ush through anything, but you might be pushing blind. Resilience without awareness can lead to burnout or building the wrong things."
  const GrinderInsightRest: string :=
    "an survive anything. But are you building the right things?"
  const ReactorDescriptionRest: string :=
    "ant to grow and you take action, but your emotions drive the bus. Learning to pause before acting is your edge."
  const ReactorInsightRest: string :=
    "fire is real. Learning to direct it? That's the next level."
  const DormantDescriptionRest: string :=
    "'s potential here, waiting to be activated. You're not broken — you just haven't been shown the way yet."
  const DormantInsightRest: string :=
    "e not behind. You're just getting started."
  const IntegratedDescriptionRest: string :=
    "balance across all dimensions. You've done the work. Now it's about maintaining and going deeper."
  const IntegratedInsightRest: string :=
    "e built something real. The question now is: what do you do with it?"

  /** `getArchetypeDetails`: the description and insight shown for an
      archetype, each its head followed by the rest of the text. */
  function GetArchetypeDetails(a: Archetype): (r: ArchetypeDetails)
    ensures |r.description| > 5 && r.description[..5] == DescriptionHead(a)
    ensures |r.insight| > 5 && r.insight[..5] == InsightHead(a)
  {
    match a
    case Overthinker => ArchetypeDetails("High " + OverthinkerDescriptionRest, "You s" + OverthinkerInsightRest)
    case Grinder => ArchetypeDetails("You p" + GrinderDescriptionRest, "You c" + GrinderInsightRest)
    case Reactor => ArchetypeDetails("You w" + ReactorDescriptionRest, "Your " + ReactorInsightRest)
    case Dormant => ArchetypeDetails("There" + DormantDescriptionRest, "You'r" + DormantInsightRest)
    case Integrated => ArchetypeDetails("Rare " + IntegratedDescriptionRest, "You'v" + IntegratedInsightRest)
  }

  /** Every archetype has its own narrative: no two archetypes share a
      description or an insight. */
  lemma ArchetypeDetailsDistinct(a: Archetype, b: Archetype)
    requires a != b
    ensures GetArchetypeDetails(a).description != GetArchetypeDetails(b).description
    ensures GetArchetypeDetails(a).insight != GetArchetypeDetails(b).insight
  {
    assert DescriptionHead(a) != DescriptionHead(b);
    assert InsightHead(a) != InsightHead(b);
  }

  /** `generateAssessmentResult`: scores, then the archetype of those scores,
      then that archetype's narrative; invalid answers give no partial result. */
  function GenerateAssessmentResult(answers: seq<int>): (r: Result<AssessmentResult, AssessmentError>)
    ensures r.Ok? <==> ValidAnswers(AssessmentQuestions, answers)
    ensures r.Err? ==> CalculateScores(answers) == Err(r.error)
    ensures r.Ok? ==> CalculateScores(answers) == Ok(r.value.scores)
                      && r.value.archetype == DetermineArchetype(r.value.scores)
                      && r.value.archetypeDescription == GetArchetypeDetails(r.value.archetype).description
                      && r.value.insight == GetArchetypeDetails(r.value.archetype).insight
  {
    match CalculateScores(answers)
    case Err(e) => Err(e)
    case Ok(scores) =>
      var archetype := DetermineArchetype(scores);
      var details := GetArchetypeDetails(archetype);
      Ok(AssessmentResult(scores, archetype, details.description, details.insight))
  }

  // ----- score levels -----

  datatype ScoreLevel = Low | Medium | High | Excellent {
    function Rank(): nat {
      match this
      case Low => 0
      case Medium => 1
      case High => 2
      case Excellent => 3
    }
  }

  /** `getScoreLevel`: the bands [..45), [45, 60), [60, 75) and [75..). */
  function GetScoreLevel(score: int): (r: ScoreLevel)
    ensures r == Low <==> score < 45
    ensures r == Medium <==> 45 <= score < 60
    ensures r == High <==> 60 <= score < 75
    ensures r == Excellent <==> 75 <= score
  {
    if score < 45 then Low
    else if score < 60 then Medium
    else if score < 75 then High
    else Excellent
  }

  /** A higher score never gets a lower level. */
  lemma ScoreLevelMonotone(a: int, b: int)
    requires a <= b
    ensures GetScoreLevel(a).Rank() <= GetScoreLevel(b).Rank()
  {
  }
}
