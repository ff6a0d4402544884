/**
 * Semester keys. The application stores each semester under a display
 * string such as "2학년 1학기" (grade 2, first half) and recovers the grade
 * and the half from that string with three tests: its first character, a
 * prefix test and a substring test for "1학기". This module gives the six
 * keys a structured form and proves that those string tests decode every
 * key correctly, so the rest of the model can use the structured form.
 */
module Semesters {

  /** School year inside middle school. */
  type Grade = g: int | 1 <= g <= 3 witness 1

  /** First (1학기) or second (2학기) half of the school year. */
  type Half = h: int | 1 <= h <= 2 witness 1

  datatype Semester = Semester(grade: Grade, half: Half)

  function Digit(d: int): char
    requires 1 <= d <= 3
  {
    if d == 1 then '1' else if d == 2 then '2' else '3'
  }

  /** The display string the application uses as the semester's key. */
  function Key(s: Semester): (k: string)
    ensures |k| == 7 && k[0] == Digit(s.grade) && k[4] == Digit(s.half)
  {
    [Digit(s.grade)] + "학년 " + [Digit(s.half)] + "학기"
  }

  /** The six keys, in the order the menu lists them. */
  const SemesterKeys: seq<string> :=
    ["1학년 1학기", "1학년 2학기", "2학년 1학기", "2학년 2학기", "3학년 1학기", "3학년 2학기"]

  /** The six semesters, in menu order. */
  const AllSemesters: seq<Semester> :=
    [Semester(1, 1), Semester(1, 2), Semester(2, 1), Semester(2, 2), Semester(3, 1), Semester(3, 2)]

  /** `key.startsWith(c)` for a one-character prefix. */
  predicate StartsWith(key: string, c: char) {
    |key| > 0 && key[0] == c
  }

  /** `key.includes(pat)`: some window of `key` equals `pat`. */
  predicate Includes(key: string, pat: string) {
    exists i | 0 <= i <= |key| - |pat| :: MatchesAt(key, pat, i)
  }

  /** `pat` occurs in `key` starting at position `i`. */
  predicate MatchesAt(key: string, pat: string, i: int)
    requires 0 <= i <= |key| - |pat|
  {
    key[i..i + |pat|] == pat
  }

  /** The marker the scoring code looks for to tell the first half. */
  const FirstHalfMarker: string := "1학기"

  /**
   * Every semester's key starts with its grade digit and with no other,
   * and contains "1학기" exactly when it is a first half.
   */
  lemma KeyDecodes(s: Semester)
    ensures StartsWith(Key(s), '1') <==> s.grade == 1
    ensures StartsWith(Key(s), '2') <==> s.grade == 2
    ensures StartsWith(Key(s), '3') <==> s.grade == 3
    ensures Includes(Key(s), FirstHalfMarker) <==> s.half == 1
  {
    var k := Key(s);
    assert k == [Digit(s.grade), '학', '년', ' ', Digit(s.half), '학', '기'];
    if s.half == 1 {
      assert MatchesAt(k, FirstHalfMarker, 4);
    } else {
      forall i | 0 <= i <= |k| - |FirstHalfMarker|
        ensures !MatchesAt(k, FirstHalfMarker, i)
      {
        if i == 0 {
          assert k[i..i + 3][2] != FirstHalfMarker[2];
        } else {
          assert k[i..i + 3][0] != FirstHalfMarker[0];
        }
      }
    }
  }

  /** The menu's six literal keys are exactly the keys of the six semesters, in order. */
  lemma MenuKeysAreSemesterKeys()
    ensures |SemesterKeys| == |AllSemesters| == 6
    ensures forall j :: 0 <= j < 6 ==> SemesterKeys[j] == Key(AllSemesters[j])
  {
  }

  /** Distinct semesters have distinct keys, so a key map loses nothing. */
  lemma KeyInjective(s: Semester, t: Semester)
    requires Key(s) == Key(t)
    ensures s == t
  {
    assert Key(s)[0] == Key(t)[0] && Key(s)[4] == Key(t)[4];
  }
}
