/**
 * The shapes of the per-student record: subject rows, semesters and the
 * non-academic data. The application declares these in its `types`
 * module; here they are the datatypes the rest of the model works on.
 */
module Types {
  import opened Wrappers
  import opened Semesters

  /** The subject names that occur in the three grade lists. */
  datatype SubjectName =
    | Korean      // 국어
    | Math        // 수학
    | English     // 영어
    | Science     // 과학
    | Social      // 사회
    | TechHome    // 기가 (technology and home economics)
    | Ethics      // 도덕
    | Hanmun      // 한문 (classical Chinese)
    | History     // 역사
    | Informatics // 정보
    | Art         // 미술
    | Music       // 음악
    | PE          // 체육

  /** The name as the application spells it. */
  function Label(n: SubjectName): string {
    match n
    case Korean => "국어"
    case Math => "수학"
    case English => "영어"
    case Science => "과학"
    case Social => "사회"
    case TechHome => "기가"
    case Ethics => "도덕"
    case Hanmun => "한문"
    case History => "역사"
    case Informatics => "정보"
    case Art => "미술"
    case Music => "음악"
    case PE => "체육"
  }

  /** Achievement band: A..E for scored semesters, P in a free semester. */
  datatype Achievement = A | B | C | D | E | P

  /** A subject's displayed score: a number, or '-' in a free semester. */
  datatype RawScore = Num(value: real) | Dash

  /** The input fields of a subject row (grade 1 uses the first three). */
  datatype Field = Midterm | Final | Performance | PerfA | PerfB | PerfC | PerfD | PaperTest

  /**
   * One subject row. A component the user never typed into is `None`;
   * the score formula reads it as 0.
   */
  datatype SubjectGrade = SubjectGrade(
    name: SubjectName,
    rawScore: RawScore,
    achievement: Achievement,
    midterm: Option<real>,
    final: Option<real>,
    performance: Option<real>,
    perfA: Option<real>,
    perfB: Option<real>,
    perfC: Option<real>,
    perfD: Option<real>,
    paperTest: Option<real>)
  {
    /** The value held in input field `f`. */
    function Get(f: Field): Option<real> {
      match f
      case Midterm => midterm
      case Final => final
      case Performance => performance
      case PerfA => perfA
      case PerfB => perfB
      case PerfC => perfC
      case PerfD => perfD
      case PaperTest => paperTest
    }

    /** The row with input field `f` replaced by `v` and nothing else changed. */
    function With(f: Field, v: Option<real>): (r: SubjectGrade)
      ensures r.Get(f) == v
      ensures forall g :: g != f ==> r.Get(g) == Get(g)
      ensures r.name == name && r.rawScore == rawScore && r.achievement == achievement
    {
      match f
      case Midterm => this.(midterm := v)
      case Final => this.(final := v)
      case Performance => this.(performance := v)
      case PerfA => this.(perfA := v)
      case PerfB => this.(perfB := v)
      case PerfC => this.(perfC := v)
      case PerfD => this.(perfD := v)
      case PaperTest => this.(paperTest := v)
    }

    /** Same name and same input fields (score and band may differ). */
    predicate SameInputs(other: SubjectGrade) {
      name == other.name && forall f :: Get(f) == other.Get(f)
    }
  }

  /** A row as a fresh semester creates it: score 0, band A, no inputs. */
  function BlankRow(n: SubjectName): SubjectGrade {
    SubjectGrade(n, Num(0.0), A, None, None, None, None, None, None, None, None)
  }

  datatype SemesterData = SemesterData(isFreeSemester: bool, subjects: seq<SubjectGrade>)

  // ---- non-academic data ----

  datatype AttendanceKind = Absences | Tardies | EarlyLeaves | Results

  /** One row per attendance kind, one slot per grade (index 0..2). */
  datatype Attendance = Attendance(
    absences: seq<real>, tardies: seq<real>, earlyLeaves: seq<real>, results: seq<real>)
  {
    function Get(k: AttendanceKind): seq<real> {
      match k
      case Absences => absences
      case Tardies => tardies
      case EarlyLeaves => earlyLeaves
      case Results => results
    }

    function With(k: AttendanceKind, row: seq<real>): (r: Attendance)
      ensures r.Get(k) == row
      ensures forall j :: j != k ==> r.Get(j) == Get(j)
    {
      match k
      case Absences => this.(absences := row)
      case Tardies => this.(tardies := row)
      case EarlyLeaves => this.(earlyLeaves := row)
      case Results => this.(results := row)
    }

    /** Every row has three slots and no negative count. */
    predicate Valid() {
      forall k :: |Get(k)| == 3 && forall i :: 0 <= i < 3 ==> Get(k)[i] >= 0.0
    }
  }

  /** The volunteer-hours policy the user picks ('none', '30h', '20h', 'disabled'). */
  datatype SpecialCase = NoCase | Hours30 | Hours20 | Disabled

  datatype Volunteer = Volunteer(hours: real, specialCase: SpecialCase)

  datatype BehaviorField = Base | Extra

  datatype BehaviorPoints = BehaviorPoints(base: real, extra: real) {
    function With(f: BehaviorField, v: real): BehaviorPoints {
      match f
      case Base => this.(base := v)
      case Extra => this.(extra := v)
    }
  }

  /** Behaviour points per grade ('grade1', 'grade2', 'grade3'). */
  datatype Behavior = Behavior(grade1: BehaviorPoints, grade2: BehaviorPoints, grade3: BehaviorPoints) {
    function Get(g: Grade): BehaviorPoints {
      if g == 1 then grade1 else if g == 2 then grade2 else grade3
    }

    function With(g: Grade, p: BehaviorPoints): (r: Behavior)
      ensures r.Get(g) == p
      ensures forall h: Grade :: h != g ==> r.Get(h) == Get(h)
    {
      if g == 1 then this.(grade1 := p) else if g == 2 then this.(grade2 := p) else this.(grade3 := p)
    }
  }

  datatype NonAcademicData = NonAcademicData(attendance: Attendance, volunteer: Volunteer, behavior: Behavior)
}
