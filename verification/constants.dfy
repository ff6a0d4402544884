/**
 * The rule data: the eleven subjects of each grade and the non-academic
 * record a new user starts with.
 */
module Constants {
  import opened Semesters
  import opened Types

  const Grade1Subjects: seq<SubjectName> :=
    [Korean, Math, English, Science, Social, TechHome, Ethics, Hanmun, Art, Music, PE]
  const Grade2Subjects: seq<SubjectName> :=
    [Korean, Math, English, Science, History, TechHome, Ethics, Informatics, Art, Music, PE]
  const Grade3Subjects: seq<SubjectName> :=
    [Korean, Math, English, Science, History, Social, TechHome, Hanmun, Art, Music, PE]

  /** The list a semester of grade `g` is built from. */
  function SubjectsFor(g: Grade): seq<SubjectName> {
    if g == 1 then Grade1Subjects else if g == 2 then Grade2Subjects else Grade3Subjects
  }

  predicate NoDuplicates<T(==)>(s: seq<T>) {
    forall i, j :: 0 <= i < j < |s| ==> s[i] != s[j]
  }

  const InitialAttendance: Attendance :=
    Attendance([0.0, 0.0, 0.0], [0.0, 0.0, 0.0], [0.0, 0.0, 0.0], [0.0, 0.0, 0.0])

  const InitialVolunteer: Volunteer := Volunteer(0.0, NoCase)

  const InitialBehavior: Behavior :=
    Behavior(BehaviorPoints(3.0, 0.0), BehaviorPoints(3.0, 0.0), BehaviorPoints(3.0, 0.0))

  const InitialNonAcademic: NonAcademicData :=
    NonAcademicData(InitialAttendance, InitialVolunteer, InitialBehavior)

  /** A list of subject names spelled as the application spells them. */
  function Labels(names: seq<SubjectName>): (r: seq<string>)
    ensures |r| == |names|
    ensures forall i :: 0 <= i < |names| ==> r[i] == Label(names[i])
  {
    seq(|names|, i requires 0 <= i < |names| => Label(names[i]))
  }

  /** The subject datatype loses nothing: distinct names are spelled differently. */
  lemma LabelInjective(m: SubjectName, n: SubjectName)
    ensures Label(m) == Label(n) ==> m == n
  {
  }

  /** The three grade lists spell out the literals of the application's subject lists. */
  lemma LabelsMatchSource()
    ensures Labels(Grade1Subjects) == ["국어", "수학", "영어", "과학", "사회", "기가", "도덕", "한문", "미술", "음악", "체육"]
    ensures Labels(Grade2Subjects) == ["국어", "수학", "영어", "과학", "역사", "기가", "도덕", "정보", "미술", "음악", "체육"]
    ensures Labels(Grade3Subjects) == ["국어", "수학", "영어", "과학", "역사", "사회", "기가", "한문", "미술", "음악", "체육"]
  {
  }

  /** Each grade list has eleven distinct subjects. */
  lemma ListShape(g: Grade)
    ensures |SubjectsFor(g)| == 11
    ensures NoDuplicates(SubjectsFor(g))
  {
  }

  /** Core subjects lead every list and the arts/PE subjects close it. */
  lemma SharedPositions(g: Grade)
    ensures SubjectsFor(g)[..4] == [Korean, Math, English, Science]
    ensures SubjectsFor(g)[8..] == [Art, Music, PE]
  {
  }

  /** 한문 and 사회 are taught in grades 1 and 3 only. */
  lemma SpecialRowSubjects(g: Grade)
    ensures Hanmun in SubjectsFor(g) <==> g != 2
    ensures Social in SubjectsFor(g) <==> g != 2
    ensures History in SubjectsFor(g) <==> g != 1
  {
  }

  /**
   * The initial record: every attendance row is three zeros, 0 volunteer
   * hours under the default policy, behaviour 3 + 0 in every grade.
   */
  lemma InitialRecord()
    ensures InitialAttendance.Valid()
    ensures forall k :: InitialAttendance.Get(k) == [0.0, 0.0, 0.0]
    ensures InitialVolunteer.hours == 0.0 && InitialVolunteer.specialCase == NoCase
    ensures forall g: Grade :: InitialBehavior.Get(g) == BehaviorPoints(3.0, 0.0)
  {
  }
}
