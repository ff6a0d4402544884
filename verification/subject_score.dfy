/**
 * The subject score. A decision table on grade, semester half and
 * subject name picks a linear combination of the row's inputs: in
 * grade 1 the midterm and final count 30% each and the performance mark
 * is added as it is; in grades 2 and 3 the four performance slots are
 * first passed through the school's performance scale and then weighted
 * together with the paper test. The result is rounded to one decimal.
 *
 * The performance scale lives in a grading module that is not part of
 * this model, so it is a parameter `perfScale` of every function here.
 */
module SubjectScore {
  import opened Wrappers
  import opened Semesters
  import opened Types
  import opened InputPolicy

  /** `x || 0`: a missing input counts as 0. */
  function Or0(o: Option<real>): real {
    match o
    case Some(v) => v
    case None => 0.0
  }

  /** The weights of one row of the table. */
  datatype Formula =
    | ExamFormula(midterm: real, final: real, performance: real)
    | SlotFormula(a: real, b: real, c: real, d: real, paper: real)

  /** The subjects the grade-1 formula gives both exams (listed again in the scoring code). */
  const Grade1CoreSubjects: seq<SubjectName> := [Korean, Math, English, Science, Social, TechHome, Ethics]

  /** The arts/PE subjects, graded on their own band set. */
  predicate IsArtsPe(name: SubjectName) {
    name in [Art, Music, PE]
  }

  /** The decision table, branch by branch in the order the scoring code tests them. */
  function FormulaFor(sem: Semester, name: SubjectName): Formula {
    if sem.grade == 1 then
      if name in Grade1CoreSubjects then ExamFormula(0.3, 0.3, 1.0)
      else if name == Hanmun then ExamFormula(0.0, 0.3, 1.0)
      else ExamFormula(0.0, 0.0, 1.0)
    else if name in [Korean, Math, History] || (name == Science && sem.grade == 2 && sem.half == 1) then
      SlotFormula(0.2, 0.2, 0.2, 0.2, 0.2)
    else if name == Science then
      SlotFormula(0.18, 0.17, 0.18, 0.17, 0.3)
    else if name == English then
      if sem.half == 1 then SlotFormula(0.1, 0.1, 0.25, 0.25, 0.3)
      else SlotFormula(0.1, 0.2, 0.2, 0.2, 0.3)
    else if name == TechHome || (sem.grade == 3 && name == Hanmun) then
      SlotFormula(0.2, 0.1, 0.1, 0.3, 0.3)
    else if name == Social && sem.grade == 3 then
      SlotFormula(0.15, 0.15, 0.2, 0.2, 0.3)
    else if name in [Music] then
      SlotFormula(0.2, 0.3, 0.2, 0.3, 0.0)
    else
      SlotFormula(0.25, 0.25, 0.25, 0.25, 0.0)
  }

  /** The score before rounding. */
  function CalculatedRaw(sem: Semester, sub: SubjectGrade, perfScale: real -> real): real {
    Combine(FormulaFor(sem, sub.name), sub, perfScale)
  }

  /** One row of the table applied to a subject's inputs. */
  function Combine(F: Formula, sub: SubjectGrade, perfScale: real -> real): real {
    match F
    case ExamFormula(wm, wf, wp) =>
      Or0(sub.midterm) * wm + Or0(sub.final) * wf + Or0(sub.performance) * wp
    case SlotFormula(a, b, c, d, p) =>
      perfScale(Or0(sub.perfA)) * a + perfScale(Or0(sub.perfB)) * b
      + perfScale(Or0(sub.perfC)) * c + perfScale(Or0(sub.perfD)) * d + Or0(sub.paperTest) * p
  }

  // ---- rounding to one decimal ----

  function RoundHalfUp(x: real): real
    requires x >= 0.0
  {
    ((x * 10.0 + 0.5).Floor as real) / 10.0
  }

  /**
   * `Number(x.toFixed(1))` on exact reals: round to the nearest tenth,
   * ties away from zero.
   */
  function Round1(x: real): (r: real)
    ensures -0.05 <= r - x <= 0.05
    ensures x >= 0.0 ==> r >= 0.0
    ensures x <= 0.0 ==> r <= 0.0
  {
    if x >= 0.0 then RoundHalfUp(x) else -RoundHalfUp(-x)
  }

  /** `x` is a whole number of tenths. */
  predicate IsOneDecimal(x: real) {
    (x * 10.0).Floor as real == x * 10.0
  }

  /** Rounding yields a whole number of tenths. */
  lemma Round1IsOneDecimal(x: real)
    ensures IsOneDecimal(Round1(x))
  {
    var n := if x >= 0.0 then (x * 10.0 + 0.5).Floor else -((-x) * 10.0 + 0.5).Floor;
    assert Round1(x) * 10.0 == n as real;
  }

  /** A value that already has one decimal is left as it is. */
  lemma Round1Fixes(x: real)
    requires IsOneDecimal(x)
    ensures Round1(x) == x
  {
    var n := (x * 10.0).Floor;
    if x >= 0.0 {
      assert (x * 10.0 + 0.5).Floor == n;
    } else {
      assert ((-x) * 10.0 + 0.5).Floor == -n;
    }
  }

  lemma RoundHalfUpMonotone(x: real, y: real)
    requires 0.0 <= x <= y
    ensures RoundHalfUp(x) <= RoundHalfUp(y)
  {
    assert (x * 10.0 + 0.5).Floor <= (y * 10.0 + 0.5).Floor;
  }

  /** Rounding never reverses the order of two scores. */
  lemma Round1Monotone(x: real, y: real)
    requires x <= y
    ensures Round1(x) <= Round1(y)
  {
    if x >= 0.0 {
      RoundHalfUpMonotone(x, y);
    } else if y < 0.0 {
      RoundHalfUpMonotone(-y, -x);
    }
  }

  /** The stored score: the formula rounded to one decimal. */
  function SubjectRawScore(sem: Semester, sub: SubjectGrade, perfScale: real -> real): (r: real)
    ensures -0.05 <= r - CalculatedRaw(sem, sub, perfScale) <= 0.05
    ensures IsOneDecimal(r)
  {
    Round1IsOneDecimal(CalculatedRaw(sem, sub, perfScale));
    Round1(CalculatedRaw(sem, sub, perfScale))
  }

  // ---- the table's shape ----

  lemma MulMono(w: real, x: real, y: real)
    requires w >= 0.0 && x <= y
    ensures x * w <= y * w
  {
  }

  /** A combination with non-negative weights is non-decreasing in every argument. */
  lemma WeightedSumMono(a: real, b: real, c: real, d: real, e: real,
                        x1: real, x2: real, x3: real, x4: real, x5: real,
                        y1: real, y2: real, y3: real, y4: real, y5: real)
    requires a >= 0.0 && b >= 0.0 && c >= 0.0 && d >= 0.0 && e >= 0.0
    requires x1 <= y1 && x2 <= y2 && x3 <= y3 && x4 <= y4 && x5 <= y5
    ensures x1 * a + x2 * b + x3 * c + x4 * d + x5 * e <= y1 * a + y2 * b + y3 * c + y4 * d + y5 * e
  {
    MulMono(a, x1, y1);
    MulMono(b, x2, y2);
    MulMono(c, x3, y3);
    MulMono(d, x4, y4);
    MulMono(e, x5, y5);
  }

  /** Grade 1: both exams at 30% for the core seven, the final only for 한문, performance added in full. */
  lemma Grade1Weights(sem: Semester, name: SubjectName)
    requires sem.grade == 1
    ensures FormulaFor(sem, name).ExamFormula?
    ensures FormulaFor(sem, name).performance == 1.0
    ensures FormulaFor(sem, name).midterm == (if name in MidtermSubjects then 0.3 else 0.0)
    ensures FormulaFor(sem, name).final == (if name in FinalSubjects then 0.3 else 0.0)
  {
  }

  /** Grades 2 and 3: every row has non-negative weights summing to exactly 1. */
  lemma SlotWeightsSumToOne(sem: Semester, name: SubjectName)
    requires sem.grade != 1
    ensures FormulaFor(sem, name).SlotFormula?
    ensures var f := FormulaFor(sem, name);
      f.a >= 0.0 && f.b >= 0.0 && f.c >= 0.0 && f.d >= 0.0 && f.paper >= 0.0
      && f.a + f.b + f.c + f.d + f.paper == 1.0
  {
  }

  /** 과학 gets the equal-weight row only in the first half of grade 2. */
  lemma ScienceRow(sem: Semester)
    requires sem.grade != 1
    ensures FormulaFor(sem, Science) == SlotFormula(0.2, 0.2, 0.2, 0.2, 0.2) <==> sem.grade == 2 && sem.half == 1
    ensures FormulaFor(sem, Science) != SlotFormula(0.2, 0.2, 0.2, 0.2, 0.2) ==>
      FormulaFor(sem, Science) == SlotFormula(0.18, 0.17, 0.18, 0.17, 0.3)
  {
  }

  /** 영어's row depends on the half and on nothing else. */
  lemma EnglishRow(sem: Semester, other: Semester)
    requires sem.grade != 1 && other.grade != 1
    ensures FormulaFor(sem, English) == FormulaFor(other, English) <==> sem.half == other.half
  {
  }

  /** 한문 shares 기가's row exactly in grade 3; 사회 has its own row only in grade 3. */
  lemma Grade3OnlyRows(sem: Semester)
    requires sem.grade != 1
    ensures FormulaFor(sem, Hanmun) == FormulaFor(sem, TechHome) <==> sem.grade == 3
    ensures FormulaFor(sem, Social) == SlotFormula(0.15, 0.15, 0.2, 0.2, 0.3) <==> sem.grade == 3
  {
  }

  /**
   * In grades 2 and 3 the paper test carries weight exactly for the six
   * paper-test subjects and, in grade 3, for 한문 and 사회.
   */
  lemma PaperTestWeighted(sem: Semester, name: SubjectName)
    requires sem.grade != 1
    ensures FormulaFor(sem, name).paper != 0.0 <==>
      name in PaperTestSubjects || (sem.grade == 3 && name in [Hanmun, Social])
  {
  }

  // ---- what the score depends on ----

  /** A grade's score never reads the other grade band's fields. */
  lemma OtherBandFieldsIgnored(sem: Semester, sub: SubjectGrade, f: Field, v: Option<real>, perfScale: real -> real)
    requires sem.grade == 1 ==> f in {PerfA, PerfB, PerfC, PerfD, PaperTest}
    requires sem.grade != 1 ==> f in {Midterm, Final, Performance}
    ensures CalculatedRaw(sem, sub.With(f, v), perfScale) == CalculatedRaw(sem, sub, perfScale)
  {
  }

  /**
   * A closed field has no effect on the score, except the paper test of
   * 한문 and 사회 in grade 3 (see BlockedPaperTestStillWeighted).
   */
  lemma DisabledFieldIgnored(sem: Semester, sub: SubjectGrade, f: Field, v: Option<real>, perfScale: real -> real)
    requires IsInputDisabled(sem, sub.name, f)
    requires !(sem.grade == 3 && sub.name in [Hanmun, Social])
    ensures CalculatedRaw(sem, sub.With(f, v), perfScale) == CalculatedRaw(sem, sub, perfScale)
  {
    if sem.grade == 1 {
      Grade1Weights(sem, sub.name);
    } else {
      PaperTestWeighted(sem, sub.name);
    }
  }

  /**
   * The cross-rule mismatch: in grade 3 the rows of 한문 and 사회 weight
   * the paper test by 0.3, yet the input policy closes that field for both.
   */
  lemma BlockedPaperTestStillWeighted(sem: Semester, name: SubjectName)
    requires sem.grade == 3 && name in [Hanmun, Social]
    ensures IsInputDisabled(sem, name, PaperTest)
    ensures FormulaFor(sem, name).paper == 0.3
  {
  }

  /**
   * So with the paper test left empty, as the input screen forces, such a
   * subject can reach at most 70 even with every performance slot at 100.
   */
  lemma BlockedPaperTestCeiling(sem: Semester, sub: SubjectGrade, perfScale: real -> real)
    requires sem.grade == 3 && sub.name in [Hanmun, Social]
    requires sub.paperTest == None
    requires perfScale(Or0(sub.perfA)) <= 100.0 && perfScale(Or0(sub.perfB)) <= 100.0
    requires perfScale(Or0(sub.perfC)) <= 100.0 && perfScale(Or0(sub.perfD)) <= 100.0
    ensures CalculatedRaw(sem, sub, perfScale) <= 70.0
  {
  }

  ghost predicate Monotone(perfScale: real -> real) {
    forall x, y :: x <= y ==> perfScale(x) <= perfScale(y)
  }

  /**
   * Raising one input never lowers the score (for the performance slots,
   * given a non-decreasing performance scale).
   */
  lemma MonotoneInField(sem: Semester, sub: SubjectGrade, f: Field, v: real, w: real, perfScale: real -> real)
    requires v <= w
    requires Monotone(perfScale)
    ensures CalculatedRaw(sem, sub.With(f, Some(v)), perfScale) <= CalculatedRaw(sem, sub.With(f, Some(w)), perfScale)
    ensures SubjectRawScore(sem, sub.With(f, Some(v)), perfScale) <= SubjectRawScore(sem, sub.With(f, Some(w)), perfScale)
  {
    var lo, hi := sub.With(f, Some(v)), sub.With(f, Some(w));
    forall g ensures Or0(lo.Get(g)) <= Or0(hi.Get(g)) && perfScale(Or0(lo.Get(g))) <= perfScale(Or0(hi.Get(g))) {
      if g == f {
        assert Or0(lo.Get(g)) <= Or0(hi.Get(g));
      } else {
        assert lo.Get(g) == hi.Get(g);
      }
    }
    assert lo.Get(PerfA) == lo.perfA && lo.Get(PerfB) == lo.perfB && lo.Get(PerfC) == lo.perfC && lo.Get(PerfD) == lo.perfD;
    assert hi.Get(PerfA) == hi.perfA && hi.Get(PerfB) == hi.perfB && hi.Get(PerfC) == hi.perfC && hi.Get(PerfD) == hi.perfD;
    assert lo.Get(Midterm) == lo.midterm && lo.Get(Final) == lo.final && lo.Get(Performance) == lo.performance && lo.Get(PaperTest) == lo.paperTest;
    assert hi.Get(Midterm) == hi.midterm && hi.Get(Final) == hi.final && hi.Get(Performance) == hi.performance && hi.Get(PaperTest) == hi.paperTest;
    CalculatedRawMono(sem, lo, hi, perfScale);
    Round1Monotone(CalculatedRaw(sem, lo, perfScale), CalculatedRaw(sem, hi, perfScale));
  }

  /** Every weight of every row is non-negative. */
  lemma WeightsNonNegative(sem: Semester, name: SubjectName)
    ensures var F := FormulaFor(sem, name);
      if F.ExamFormula? then F.midterm >= 0.0 && F.final >= 0.0 && F.performance >= 0.0
      else F.a >= 0.0 && F.b >= 0.0 && F.c >= 0.0 && F.d >= 0.0 && F.paper >= 0.0
  {
  }

  /** The score grows with the inputs, compared field by field. */
  lemma CalculatedRawMono(sem: Semester, lo: SubjectGrade, hi: SubjectGrade, perfScale: real -> real)
    requires lo.name == hi.name
    requires Or0(lo.midterm) <= Or0(hi.midterm) && Or0(lo.final) <= Or0(hi.final)
    requires Or0(lo.performance) <= Or0(hi.performance) && Or0(lo.paperTest) <= Or0(hi.paperTest)
    requires perfScale(Or0(lo.perfA)) <= perfScale(Or0(hi.perfA)) && perfScale(Or0(lo.perfB)) <= perfScale(Or0(hi.perfB))
    requires perfScale(Or0(lo.perfC)) <= perfScale(Or0(hi.perfC)) && perfScale(Or0(lo.perfD)) <= perfScale(Or0(hi.perfD))
    ensures CalculatedRaw(sem, lo, perfScale) <= CalculatedRaw(sem, hi, perfScale)
  {
    WeightsNonNegative(sem, lo.name);
    CombineMono(FormulaFor(sem, lo.name), lo, hi, perfScale);
  }

  lemma CombineMono(F: Formula, lo: SubjectGrade, hi: SubjectGrade, perfScale: real -> real)
    requires if F.ExamFormula? then F.midterm >= 0.0 && F.final >= 0.0 && F.performance >= 0.0
      else F.a >= 0.0 && F.b >= 0.0 && F.c >= 0.0 && F.d >= 0.0 && F.paper >= 0.0
    requires Or0(lo.midterm) <= Or0(hi.midterm) && Or0(lo.final) <= Or0(hi.final)
    requires Or0(lo.performance) <= Or0(hi.performance) && Or0(lo.paperTest) <= Or0(hi.paperTest)
    requires perfScale(Or0(lo.perfA)) <= perfScale(Or0(hi.perfA)) && perfScale(Or0(lo.perfB)) <= perfScale(Or0(hi.perfB))
    requires perfScale(Or0(lo.perfC)) <= perfScale(Or0(hi.perfC)) && perfScale(Or0(lo.perfD)) <= perfScale(Or0(hi.perfD))
    ensures Combine(F, lo, perfScale) <= Combine(F, hi, perfScale)
  {
    match F
    case ExamFormula(wm, wf, wp) =>
      WeightedSumMono(wm, wf, wp, 0.0, 0.0,
        Or0(lo.midterm), Or0(lo.final), Or0(lo.performance), 0.0, 0.0,
        Or0(hi.midterm), Or0(hi.final), Or0(hi.performance), 0.0, 0.0);
    case SlotFormula(a, b, c, d, p) =>
      WeightedSumMono(a, b, c, d, p,
        perfScale(Or0(lo.perfA)), perfScale(Or0(lo.perfB)), perfScale(Or0(lo.perfC)), perfScale(Or0(lo.perfD)), Or0(lo.paperTest),
        perfScale(Or0(hi.perfA)), perfScale(Or0(hi.perfB)), perfScale(Or0(hi.perfC)), perfScale(Or0(hi.perfD)), Or0(hi.paperTest));
  }

  /**
   * In grades 2 and 3 the score is a weighted average: when the scaled
   * slots and the paper test all lie in [0, 100], so does the score.
   */
  lemma SlotScoreInRange(sem: Semester, sub: SubjectGrade, perfScale: real -> real)
    requires sem.grade != 1
    requires 0.0 <= perfScale(Or0(sub.perfA)) <= 100.0 && 0.0 <= perfScale(Or0(sub.perfB)) <= 100.0
    requires 0.0 <= perfScale(Or0(sub.perfC)) <= 100.0 && 0.0 <= perfScale(Or0(sub.perfD)) <= 100.0
    requires 0.0 <= Or0(sub.paperTest) <= 100.0
    ensures 0.0 <= CalculatedRaw(sem, sub, perfScale) <= 100.0
    ensures 0.0 <= SubjectRawScore(sem, sub, perfScale) <= 100.0
  {
    SlotWeightsSumToOne(sem, sub.name);
    var F := FormulaFor(sem, sub.name);
    var x1, x2, x3, x4 := perfScale(Or0(sub.perfA)), perfScale(Or0(sub.perfB)), perfScale(Or0(sub.perfC)), perfScale(Or0(sub.perfD));
    WeightedSumMono(F.a, F.b, F.c, F.d, F.paper, 0.0, 0.0, 0.0, 0.0, 0.0, x1, x2, x3, x4, Or0(sub.paperTest));
    WeightedSumMono(F.a, F.b, F.c, F.d, F.paper, x1, x2, x3, x4, Or0(sub.paperTest), 100.0, 100.0, 100.0, 100.0, 100.0);
    Round1Monotone(CalculatedRaw(sem, sub, perfScale), 100.0);
    Round1Fixes(100.0);
  }

  // ---- worked examples ----

  /** 국어 in grade 1 with midterm 90, final 85, performance 18 scores 70.5. */
  lemma KoreanGrade1Example(half: Half, perfScale: real -> real)
    ensures SubjectRawScore(Semester(1, half),
      BlankRow(Korean).(midterm := Some(90.0), final := Some(85.0), performance := Some(18.0)), perfScale) == 70.5
  {
    Round1Fixes(70.5);
  }

  /** 음악 in grade 1 scores its performance mark, whatever the exam fields hold. */
  lemma MusicGrade1Example(half: Half, mid: Option<real>, fin: Option<real>, perfScale: real -> real)
    ensures SubjectRawScore(Semester(1, half),
      BlankRow(Music).(midterm := mid, final := fin, performance := Some(15.0)), perfScale) == 15.0
  {
    Round1Fixes(15.0);
  }
}
