# Hwasan middle-school admissions calculator — scoring and record model

A Dafny model of the subject-scoring rules and the record-editing handlers of
a web calculator that Hwasan middle-school students use to estimate their
high-school admissions score. A student enters, for each of six semesters
(1학년 1학기 … 3학년 2학기), one row per subject. In grade 1 a row holds the
midterm, final and performance marks. In grades 2 and 3 it holds four
performance slots (perfA..perfD) and a paper test. From a row the application
computes a one-decimal score and an achievement band. A semester can be
switched to free-semester (pass/fail) mode. The non-academic part of the
record holds attendance counts, volunteer hours and behaviour points, and the
user can bookmark schools.

Modules:

- `Semesters` (semesters.dfy): the six semester keys. It proves that the
  string tests the application applies to a key give back its grade and half.
  Those tests are the first character, a prefix test and a search for "1학기".
- `Types` (types.dfy): subject rows, semesters and the non-academic data, as datatypes.
- `Constants` (constants.dfy): the three eleven-subject lists and the initial non-academic record.
- `InputPolicy` (input_policy.dfy): which exam fields are closed for which subject.
- `SubjectScore` (subject_score.dfy): the decision table of weights and the
  rounding to one decimal. It also holds the lemmas about both: weights that
  sum to one, which inputs each row ignores, monotonicity, range and worked
  examples.
- `SemesterRecords` (semester_records.dfy): the default semester, the
  free-semester switch and one edited subject row.
- `Bookmarks` (bookmarks.dfy): bookmark add/remove.
- `Profiles` (profiles.dfy): the student's record as objects edited in place
  (`Profile`, `NonAcademicRecord`) and the sign-in session (`Session`).

The performance scale (`calculatePerfScale`) and the band rule
(`getAchievement`) are defined in the utility module `utils/gradeUtils`, which is not part of this
model. Every function that needs them takes them as parameters: `perfScale`
and `grading`. Properties that depend on them are stated relative to those
parameters. For example, the score is monotone in a performance slot whenever
`perfScale` is non-decreasing.

One mismatch between two of the application's rules is proved rather than
repaired. In grade 3 the score rows for 한문 and 사회 weight the paper test by
0.3 (App.tsx:441-444), but the input policy closes the paper-test field for
both subjects (App.tsx:173). `SubjectScore.BlockedPaperTestStillWeighted`
states the mismatch. `SubjectScore.BlockedPaperTestCeiling` shows the
consequence: with the field left empty, such a subject scores at most 70 even
when every performance slot is at 100. Nothing shows which of the two rules
is the intended one, so the model keeps both as written.

Where the design description and the code differ, the model follows the code:

- Switching free-semester mode off or on keeps each row's inputs. It resets
  only the score and the band.
- The scoring function itself does not check the input policy. Only the
  input screen does.

## Model

| member | source | states |
|---|---|---|
| `Semesters.Key` | App.tsx:361 | A semester's key is seven characters long. The grade digit comes first and the half digit is at position 4. |
| `Semesters.KeyDecodes` | App.tsx:386-388 | For every semester, the key starts with '1', '2' or '3' exactly when that is its grade. The key contains "1학기" exactly when the semester is a first half. |
| `Semesters.MenuKeysAreSemesterKeys` | App.tsx:361 | The six keys listed in the menu are the keys of the six semesters, in order. |
| `Semesters.KeyInjective` | App.tsx:361 | Distinct semesters have distinct keys. |
| `Types.SubjectGrade.With` | App.tsx:412 | Writing one input field sets that field. Every other field, the name, the score and the band are kept. |
| `Constants.LabelInjective` | constants.tsx:4-6 | Distinct subject names have distinct spellings, so the name datatype identifies each literal. |
| `Constants.LabelsMatchSource` | constants.tsx:4-6 | The three grade lists spell out exactly the literals of the source lists, in order. |
| `Constants.ListShape` | constants.tsx:4-6 | Each grade list has exactly 11 entries with no duplicates. |
| `Constants.SharedPositions` | constants.tsx:4-6 | Every list starts with 국어, 수학, 영어, 과학 and ends with 미술, 음악, 체육. |
| `Constants.SpecialRowSubjects` | constants.tsx:4-6 | 한문 and 사회 occur only in the grade-1 and grade-3 lists. 역사 occurs only in grades 2 and 3. |
| `Constants.InitialRecord` | constants.tsx:8-24 | Initially every attendance row is [0,0,0], volunteer hours are 0 under the default policy, and behaviour is 3 + 0 in every grade. |
| `InputPolicy.Grade1ExamLadder` | App.tsx:163-169 | In grade 1 every subject with a midterm also has a final. The final without a midterm happens exactly for 한문. The midterm is closed exactly for the subjects outside the core seven. |
| `InputPolicy.OnlyExamFieldsDisabled` | App.tsx:161-177 | Only midterm or final (grade 1) or the paper test (grades 2-3) can be closed. Every other field is always open. |
| `InputPolicy.ArtsNeverSitExams` | App.tsx:165-173 | 미술, 음악 and 체육 have every exam field closed in every semester. |
| `InputPolicy.PolicyListsAgreeWithGradeLists` | App.tsx:165-173 | Every subject named by the input policy occurs in the matching grade list(s). |
| `SubjectScore.Round1` | App.tsx:452 | Rounding to one decimal moves a value by at most 0.05 and keeps its sign. |
| `SubjectScore.Round1IsOneDecimal` | App.tsx:452 | A rounded value is a whole number of tenths. |
| `SubjectScore.Round1Fixes` | App.tsx:452 | A value that already has one decimal is unchanged by rounding. |
| `SubjectScore.Round1Monotone` | App.tsx:452 | Rounding preserves the order of two values. |
| `SubjectScore.SubjectRawScore` | App.tsx:414-452 | The stored score is within 0.05 of the formula's value and has one decimal. |
| `SubjectScore.Grade1Weights` | App.tsx:417-427 | In grade 1 the midterm weighs 0.3 exactly for the midterm subjects of the input policy and the final weighs 0.3 exactly for its final subjects. Otherwise each weighs 0. Performance is added in full. |
| `SubjectScore.SlotWeightsSumToOne` | App.tsx:428-449 | In grades 2-3 every row has non-negative weights summing to exactly 1. |
| `SubjectScore.WeightsNonNegative` | App.tsx:417-449 | No row of the table has a negative weight. |
| `SubjectScore.ScienceRow` | App.tsx:434-437 | 과학 uses the equal 0.2 weights exactly in grade 2, first half. Otherwise it uses 0.18/0.17/0.18/0.17/0.3. |
| `SubjectScore.EnglishRow` | App.tsx:438-440 | 영어's row in grades 2-3 depends on the half and on nothing else. |
| `SubjectScore.Grade3OnlyRows` | App.tsx:441-444 | 한문 shares 기가's row exactly in grade 3. 사회 has its own row exactly in grade 3. |
| `SubjectScore.PaperTestWeighted` | App.tsx:433-449 | In grades 2-3 the paper test has non-zero weight exactly for the six paper-test subjects, plus 한문 and 사회 in grade 3. |
| `SubjectScore.OtherBandFieldsIgnored` | App.tsx:417-450 | The grade-1 score never reads perfA..paperTest. The grade-2/3 score never reads midterm, final or performance. |
| `SubjectScore.DisabledFieldIgnored` | App.tsx:414-450 | A field closed by the input policy has no effect on the score, except for grade-3 한문 and 사회. |
| `SubjectScore.BlockedPaperTestStillWeighted` | App.tsx:441-444 | For grade-3 한문 and 사회, the paper test is closed for input yet weighted 0.3. |
| `SubjectScore.BlockedPaperTestCeiling` | App.tsx:441-444 | With the paper test empty and performance scaled to at most 100, those subjects score at most 70. |
| `SubjectScore.CalculatedRawMono` | App.tsx:414-450 | The formula is non-decreasing when every input and every scaled slot grows. |
| `SubjectScore.MonotoneInField` | App.tsx:414-452 | Raising one input never lowers the formula's value or the rounded score, given a non-decreasing performance scale. |
| `SubjectScore.SlotScoreInRange` | App.tsx:428-452 | In grades 2-3, scaled slots and paper test in [0,100] give a formula value and a rounded score in [0,100]. |
| `SubjectScore.KoreanGrade1Example` | App.tsx:417-422 | 국어 in grade 1 with 90/85/18 scores 70.5. |
| `SubjectScore.MusicGrade1Example` | App.tsx:425-427 | 음악 in grade 1 with performance 15 scores 15, whatever the exam fields hold. |
| `SemesterRecords.DefaultSemester` | App.tsx:389-394 | A missing semester starts non-free. It has one row per subject of its grade's list, in order, each with score 0, band A and no inputs. |
| `SemesterRecords.DefaultSemesterShape` | App.tsx:389-394 | The default semester follows its grade list and satisfies the free-semester invariant. |
| `SemesterRecords.WithFreeMode` | App.tsx:396-406 | The switch sets the flag and keeps every row's name and inputs. Each row becomes (P, '-') when switched on and (A, 0) when switched off. |
| `SemesterRecords.LastSwitchWins` | App.tsx:396-406 | Two switches in a row equal the last one alone. In particular, switching twice to the same value equals switching once. |
| `SemesterRecords.SwitchKeepsShape` | App.tsx:396-406 | The switch keeps the row list aligned with the grade list. A free semester shows P and '-' on every row. |
| `SemesterRecords.UpdatedSubject` | App.tsx:410-453 | An edited row holds the typed value in its field and keeps every other input. Its score is the formula rounded to one decimal and its band is `grading(score, name ∈ {미술, 음악, 체육})`. |
| `SemesterRecords.UpdateIdempotent` | App.tsx:410-453 | Typing the same value into the same field twice gives the same row as typing it once. |
| `SemesterRecords.EditKeepsShape` | App.tsx:455-456 | Replacing one row by its edited form keeps the semester aligned with its grade list. |
| `Bookmarks.RemoveAll` | App.tsx:872 | After removal the id is absent, every other id is present exactly when it was before, and the list is no longer. |
| `Bookmarks.RemoveAllCounts` | App.tsx:872 | Removing an id deletes every copy of it. Every other id keeps its number of occurrences. |
| `Bookmarks.Toggle` | App.tsx:869-876 | A toggle flips whether the id is in the list and leaves the membership of every other id unchanged. A new id is appended at the end behind the unchanged list. |
| `Bookmarks.RemoveAllKeepsOrder` | App.tsx:872 | Removal keeps the order of the remaining ids: it distributes over concatenation. |
| `Bookmarks.RemoveAbsent` | App.tsx:872 | Removing an absent id leaves the list unchanged. |
| `Bookmarks.ToggleTwiceRestores` | App.tsx:869-876 | Adding a new id and then toggling it again restores the original list. |
| `Bookmarks.ToggleKeepsNoDuplicates` | App.tsx:869-876 | A duplicate-free list stays duplicate-free. |
| `Profiles.ClampCount` | App.tsx:600 | `max(0, v)` is non-negative, at least `v`, and is either `v` or 0. |
| `Profiles.WithCount` | App.tsx:599-600 | An attendance write puts `max(0, v)` in the chosen slot and keeps the other slots. |
| `Profiles.AttendanceEditKeepsValid` | App.tsx:597-602 | After an attendance edit, every row still has three non-negative counts. |
| `Profiles.NonAcademicRecord.constructor` | constants.tsx:8-24 | A new non-academic object holds the initial record, whose attendance rows are three non-negative counts each. |
| `Profiles.Profile.constructor` | App.tsx:116-122 | A new user has no semesters, no bookmarks and the given non-academic object. |
| `Profiles.Profile.ToggleFree` | App.tsx:396-408 | The semester, or the default one if missing, is stored switched. Everything else is unchanged. |
| `Profiles.Profile.UpdateSubject` | App.tsx:410-458 | A missing semester is created as the default. Only the row at `index` changes, to its edited form. Every other row, every other semester and the rest of the profile are unchanged. |
| `Profiles.Profile.UpdateAttendance` | App.tsx:597-603 | Slot `slot` of the chosen row becomes `max(0, val)`. The other slots, the other three rows, the volunteer data and the behaviour points are unchanged. Counts stay non-negative. |
| `Profiles.Profile.UpdateVolunteerHours` | App.tsx:605-609 | Only the volunteer hours change. |
| `Profiles.Profile.UpdateVolunteerCase` | App.tsx:605-609 | Only the volunteer policy changes. |
| `Profiles.Profile.UpdateBehavior` | App.tsx:611-615 | Only the chosen field of the chosen grade's behaviour entry changes, to the typed value. |
| `Profiles.Profile.ToggleBookmark` | App.tsx:869-877 | The bookmark list becomes its toggle. Semesters and non-academic data are unchanged. |
| `Profiles.Session.constructor` | constants.tsx:8-24 | The session holds one valid initial non-academic object and no user. |
| `Profiles.Session.Login` | App.tsx:114-126 | An empty id is refused. Otherwise the new user has no semesters or bookmarks, and its non-academic object is the session's initial object itself. |
| `Profiles.Session.LoginWithFreshRecord` | App.tsx:114-126 | Corrected sign-in: the new user gets a fresh object holding the initial record. |
| `Profiles.Session.Logout` | App.tsx:128-134 | A confirmed sign-out clears the user. An unconfirmed one changes nothing. |
| `Profiles.SecondLoginInheritsEdits` | App.tsx:114-126 | As written, a second user signing in after the first recorded 2 absences sees 2 absences. |
| `Profiles.SecondLoginStartsClean` | App.tsx:114-126 | With the corrected sign-in, the second user sees 0 absences. |

## Findings

| source | as written | input that shows it | evidently intended | confidence | as-written member | corrected member |
|---|---|---|---|---|---|---|
| App.tsx:114-126 | Sign-in gives the new user the shared initial non-academic object itself, not a copy. The attendance, volunteer and behaviour handlers (App.tsx:597-615) then edit that shared object in place. | Without reloading the page, sign in as "a", enter 2 grade-1 absences, sign out, sign in as "b": b's grade-1 absences read 2 (`Profiles.SecondLoginInheritsEdits`). | Every sign-in starts from the initial record (b reads 0, `Profiles.SecondLoginStartsClean`). | high; not executed | `Profiles.Session.Login` | `Profiles.Session.LoginWithFreshRecord` |

## Left out

- `calculatePerfScale` and `getAchievement`: their definitions are not part of this model. They are the parameters `perfScale` and `grading`, and no cut-offs or scale tables are assumed.
- `calculateTotalScore` and the non-academic scoring (attendance deductions, volunteer tiers, behaviour totals): their definitions are not part of this model, so no total score is modelled.
- SubjectScore.Round1: rounds exact reals to the nearest tenth, ties away from zero. IEEE-754 double rounding in `toFixed(1)` is not modelled, and neither is the `-0` it can produce.
- Parsing with `Number(...)` is not modelled. Every handler receives the parsed number. NaN, which `|| 0` would turn into 0 and `Math.max` would keep, is not represented.
- Subject names are a datatype of the 13 names in the grade lists, not arbitrary strings. Rows are only ever built from those lists.
- React rendering, view switching, the input screen's own gating (inputs are disabled in a free semester and by the input policy), and the sign-out confirmation dialog (the `confirmed` parameter of `Session.Logout`) are not modelled.
- Browser storage, including saving after every edit and restoring on load, is not modelled. Each `Profile` method stands for a handler followed by "replace the user and save".
- The AI-backed school search, the school-specific conversion and the advisor are external services and are left out.
- The mock school directory is display data and is left out.
