/**
 * The disabled-field policy: which exam inputs a subject does not have.
 * In grade 1 only seven subjects sit the midterm and those seven plus
 * 한문 sit the final; in grades 2 and 3 only six subjects sit the paper
 * test. Every other field is always open for input.
 */
module InputPolicy {
  import opened Semesters
  import opened Types
  import opened Constants

  const MidtermSubjects: seq<SubjectName> := [Korean, Math, English, Science, Social, TechHome, Ethics]
  const FinalSubjects: seq<SubjectName> := [Korean, Math, English, Science, Social, TechHome, Ethics, Hanmun]
  const PaperTestSubjects: seq<SubjectName> := [Korean, Math, English, Science, History, TechHome]

  /** Is `field` of subject `name` closed for input in `sem`? The grade is the key's first character. */
  predicate IsInputDisabled(sem: Semester, name: SubjectName, field: Field) {
    if sem.grade == 1 then
      if field == Midterm then name !in MidtermSubjects
      else if field == Final then name !in FinalSubjects
      else false
    else
      if field == PaperTest then name !in PaperTestSubjects
      else false
  }

  /**
   * Grade 1: the final is open for exactly the midterm subjects plus 한문,
   * so every subject with a midterm also has a final.
   */
  lemma Grade1ExamLadder(sem: Semester, name: SubjectName)
    requires sem.grade == 1
    ensures !IsInputDisabled(sem, name, Midterm) ==> !IsInputDisabled(sem, name, Final)
    ensures (!IsInputDisabled(sem, name, Final) && IsInputDisabled(sem, name, Midterm)) <==> name == Hanmun
    ensures IsInputDisabled(sem, name, Midterm) <==> name in {Hanmun, Art, Music, PE, History, Informatics}
  {
  }

  /** Only the three exam fields can ever be closed; only one of them per grade band. */
  lemma OnlyExamFieldsDisabled(sem: Semester, name: SubjectName, field: Field)
    requires IsInputDisabled(sem, name, field)
    ensures sem.grade == 1 ==> field in {Midterm, Final}
    ensures sem.grade != 1 ==> field == PaperTest
  {
  }

  /** The arts and PE subjects never sit a written exam, in any semester. */
  lemma ArtsNeverSitExams(sem: Semester, name: SubjectName)
    requires name in {Art, Music, PE}
    ensures sem.grade == 1 ==> IsInputDisabled(sem, name, Midterm) && IsInputDisabled(sem, name, Final)
    ensures sem.grade != 1 ==> IsInputDisabled(sem, name, PaperTest)
  {
  }

  /** Every subject the policy names appears in the matching grade list. */
  lemma PolicyListsAgreeWithGradeLists()
    ensures forall n :: n in MidtermSubjects ==> n in Grade1Subjects
    ensures forall n :: n in FinalSubjects ==> n in Grade1Subjects
    ensures forall n :: n in PaperTestSubjects ==> n in Grade2Subjects && n in Grade3Subjects
  {
  }
}
