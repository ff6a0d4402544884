/**
 * Semester-level values: the semester a fresh key starts with, the
 * free-semester switch, and one subject row after an edit.
 */
module SemesterRecords {
  import opened Wrappers
  import opened Semesters
  import opened Types
  import opened Constants
  import opened SubjectScore

  /** The semester shown for a key that has no data yet: the grade's list, score 0, band A. */
  function DefaultSemester(sem: Semester): (d: SemesterData)
    ensures !d.isFreeSemester
    ensures |d.subjects| == |SubjectsFor(sem.grade)| == 11
    ensures forall i :: 0 <= i < |d.subjects| ==>
      d.subjects[i].name == SubjectsFor(sem.grade)[i]
      && d.subjects[i].rawScore == Num(0.0) && d.subjects[i].achievement == A
      && forall f :: d.subjects[i].Get(f) == None
  {
    ListShape(sem.grade);
    var names := SubjectsFor(sem.grade);
    SemesterData(false, seq(|names|, i requires 0 <= i < |names| => BlankRow(names[i])))
  }

  /** The stored semester for `sem`, or the default one when the key is missing. */
  function SemesterOrDefault(semesters: map<string, SemesterData>, sem: Semester): SemesterData {
    if Key(sem) in semesters then semesters[Key(sem)] else DefaultSemester(sem)
  }

  /** Row names follow the grade's subject list, position by position. */
  predicate FollowsList(d: SemesterData, sem: Semester) {
    |d.subjects| == |SubjectsFor(sem.grade)|
    && forall i :: 0 <= i < |d.subjects| ==> d.subjects[i].name == SubjectsFor(sem.grade)[i]
  }

  /** A free semester shows P and '-' on every row. */
  predicate FreeRowsArePass(d: SemesterData) {
    d.isFreeSemester ==> forall i :: 0 <= i < |d.subjects| ==> d.subjects[i].achievement == P && d.subjects[i].rawScore == Dash
  }

  // ---- the free-semester switch ----

  function FreeModeRow(s: SubjectGrade, on: bool): SubjectGrade {
    s.(achievement := if on then P else A, rawScore := if on then Dash else Num(0.0))
  }

  /**
   * Switching free-semester mode on or off: every row keeps its name and
   * its inputs and is set to (P, '-') when on and to (A, 0) when off.
   */
  function WithFreeMode(d: SemesterData, on: bool): (r: SemesterData)
    ensures r.isFreeSemester == on
    ensures |r.subjects| == |d.subjects|
    ensures forall i :: 0 <= i < |r.subjects| ==>
      r.subjects[i].SameInputs(d.subjects[i])
      && r.subjects[i].achievement == (if on then P else A)
      && r.subjects[i].rawScore == (if on then Dash else Num(0.0))
  {
    SemesterData(on, seq(|d.subjects|, i requires 0 <= i < |d.subjects| => FreeModeRow(d.subjects[i], on)))
  }

  /** Only the last switch matters; in particular switching twice to the same value equals switching once. */
  lemma LastSwitchWins(d: SemesterData, first: bool, second: bool)
    ensures WithFreeMode(WithFreeMode(d, first), second) == WithFreeMode(d, second)
  {
    var x, y := WithFreeMode(WithFreeMode(d, first), second), WithFreeMode(d, second);
    assert forall i :: 0 <= i < |x.subjects| ==> x.subjects[i] == y.subjects[i];
  }

  /** The switch keeps a semester's shape and leaves a free semester showing P on every row. */
  lemma SwitchKeepsShape(d: SemesterData, sem: Semester, on: bool)
    requires FollowsList(d, sem)
    ensures FollowsList(WithFreeMode(d, on), sem)
    ensures FreeRowsArePass(WithFreeMode(d, on))
  {
  }

  /** A fresh semester follows its grade list and is not free. */
  lemma DefaultSemesterShape(sem: Semester)
    ensures FollowsList(DefaultSemester(sem), sem)
    ensures FreeRowsArePass(DefaultSemester(sem))
  {
  }

  // ---- editing one subject ----

  /**
   * One row after the user types `val` into `field`: that field holds the
   * value, every other input is kept, the score is the formula rounded to
   * one decimal, and the band is the one `grading` assigns to that score
   * (with the arts/PE flag for 미술, 음악 and 체육). `grading` stands for
   * the application's band rule, which is not part of this model.
   */
  function UpdatedSubject(sem: Semester, sub: SubjectGrade, field: Field, val: real,
                          perfScale: real -> real, grading: (real, bool) -> Achievement): (r: SubjectGrade)
    ensures r.name == sub.name
    ensures r.Get(field) == Some(val)
    ensures forall g :: g != field ==> r.Get(g) == sub.Get(g)
    ensures r.rawScore.Num? && IsOneDecimal(r.rawScore.value)
    ensures -0.05 <= r.rawScore.value - CalculatedRaw(sem, sub.With(field, Some(val)), perfScale) <= 0.05
    ensures r.achievement == grading(r.rawScore.value, sub.name in {Art, Music, PE})
  {
    var current := sub.With(field, Some(val));
    var raw := SubjectRawScore(sem, current, perfScale);
    current.(rawScore := Num(raw), achievement := grading(raw, IsArtsPe(current.name)))
  }

  /** Re-entering the value a field already holds gives the same row as entering it once. */
  lemma UpdateIdempotent(sem: Semester, sub: SubjectGrade, field: Field, val: real,
                         perfScale: real -> real, grading: (real, bool) -> Achievement)
    ensures var once := UpdatedSubject(sem, sub, field, val, perfScale, grading);
      UpdatedSubject(sem, once, field, val, perfScale, grading) == once
  {
  }

  /** Editing a row keeps the semester's shape. */
  lemma EditKeepsShape(d: SemesterData, sem: Semester, index: nat, field: Field, val: real,
                       perfScale: real -> real, grading: (real, bool) -> Achievement)
    requires FollowsList(d, sem) && index < |d.subjects|
    ensures FollowsList(d.(subjects := d.subjects[index := UpdatedSubject(sem, d.subjects[index], field, val, perfScale, grading)]), sem)
  {
  }
}
