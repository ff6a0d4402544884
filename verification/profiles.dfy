/**
 * The signed-in student's record and the handlers that edit it in place.
 *
 * A `Profile` holds the semesters (keyed by the semester's display key),
 * a reference to a `NonAcademicRecord` object and the bookmark list. The
 * handlers write into that state the way the application does: a
 * semester is replaced in the key map, one subject row is replaced in a
 * semester, one attendance row or behaviour entry is overwritten inside
 * the non-academic object. Saving to browser storage after each edit is
 * not part of this model.
 *
 * A `Session` owns the application's one initial non-academic object and
 * the current user. Signing in hands that very object to the new user,
 * so the in-place edits below land in it (see SecondLoginInheritsEdits).
 */
module Profiles {
  import opened Semesters
  import opened Types
  import opened Constants
  import opened SemesterRecords
  import Bookmarks

  /** `Math.max(0, v)`. */
  function ClampCount(v: real): (r: real)
    ensures r >= 0.0 && r >= v
    ensures r == v || r == 0.0
  {
    if v > 0.0 then v else 0.0
  }

  /** One attendance row with slot `slot` overwritten by the clamped value. */
  function WithCount(row: seq<real>, slot: nat, v: real): (r: seq<real>)
    requires slot < |row|
    ensures |r| == |row|
    ensures r[slot] >= 0.0 && (v >= 0.0 ==> r[slot] == v) && (v < 0.0 ==> r[slot] == 0.0)
    ensures forall i :: 0 <= i < |row| && i != slot ==> r[i] == row[i]
  {
    row[slot := ClampCount(v)]
  }

  /** An attendance edit keeps every count non-negative and every row three slots long. */
  lemma AttendanceEditKeepsValid(att: Attendance, kind: AttendanceKind, slot: nat, v: real)
    requires att.Valid() && slot < 3
    ensures att.With(kind, WithCount(att.Get(kind), slot, v)).Valid()
  {
    var r := att.With(kind, WithCount(att.Get(kind), slot, v));
    forall k ensures |r.Get(k)| == 3 && forall i :: 0 <= i < 3 ==> r.Get(k)[i] >= 0.0 {
      if k != kind {
        assert r.Get(k) == att.Get(k);
      }
    }
  }

  /** Attendance, volunteer and behaviour data, updated field by field. */
  class NonAcademicRecord {
    var attendance: Attendance
    var volunteer: Volunteer
    var behavior: Behavior

    /** The initial record every new user is meant to start from. */
    constructor ()
      ensures Data() == InitialNonAcademic
      ensures Valid()
    {
      attendance := InitialAttendance;
      volunteer := InitialVolunteer;
      behavior := InitialBehavior;
    }

    function Data(): NonAcademicData
      reads this
    {
      NonAcademicData(attendance, volunteer, behavior)
    }

    predicate Valid()
      reads this
    {
      attendance.Valid()
    }
  }

  class Profile {
    const id: string
    var semesters: map<string, SemesterData>
    var nonAcademic: NonAcademicRecord
    var bookmarks: seq<string>

    /** A new user: no semesters, no bookmarks, and the given non-academic object. */
    constructor (id: string, record: NonAcademicRecord)
      ensures this.id == id && semesters == map[] && nonAcademic == record && bookmarks == []
    {
      this.id := id;
      semesters := map[];
      nonAcademic := record;
      bookmarks := [];
    }

    /**
     * The free-semester checkbox: the semester (the default one when the
     * key is missing) is stored with every row switched. Nothing else changes.
     */
    method ToggleFree(sem: Semester, on: bool)
      modifies this
      ensures semesters == old(semesters)[Key(sem) := WithFreeMode(SemesterOrDefault(old(semesters), sem), on)]
      ensures nonAcademic == old(nonAcademic) && bookmarks == old(bookmarks)
    {
      var data := SemesterOrDefault(semesters, sem);
      semesters := semesters[Key(sem) := WithFreeMode(data, on)];
    }

    /**
     * Typing `val` into `field` of row `index`: a missing semester is
     * first stored as the default one, then that one row is replaced by
     * its recomputed form. Every other row and every other semester stays.
     */
    method UpdateSubject(sem: Semester, index: nat, field: Field, val: real,
                         perfScale: real -> real, grading: (real, bool) -> Achievement)
      requires index < |SemesterOrDefault(semesters, sem).subjects|
      modifies this
      ensures Key(sem) in semesters
      ensures forall k :: k != Key(sem) ==> (k in semesters <==> k in old(semesters))
      ensures forall k :: k != Key(sem) && k in semesters ==> semesters[k] == old(semesters)[k]
      ensures var before := SemesterOrDefault(old(semesters), sem);
        var after := semesters[Key(sem)];
        after.isFreeSemester == before.isFreeSemester
        && |after.subjects| == |before.subjects|
        && after.subjects[index] == UpdatedSubject(sem, before.subjects[index], field, val, perfScale, grading)
        && forall i :: 0 <= i < |after.subjects| && i != index ==> after.subjects[i] == before.subjects[i]
      ensures nonAcademic == old(nonAcademic) && bookmarks == old(bookmarks)
    {
      var data := SemesterOrDefault(semesters, sem);
      var current := UpdatedSubject(sem, data.subjects[index], field, val, perfScale, grading);
      if Key(sem) !in semesters {
        semesters := semesters[Key(sem) := data];
      }
      var stored := semesters[Key(sem)];
      semesters := semesters[Key(sem) := stored.(subjects := stored.subjects[index := current])];
    }

    /**
     * Attendance entry: slot `slot` of row `kind` becomes `max(0, val)`
     * inside the non-academic object; the other slots and rows stay.
     */
    method UpdateAttendance(kind: AttendanceKind, slot: nat, val: real)
      requires slot < 3 && nonAcademic.Valid()
      modifies nonAcademic
      ensures nonAcademic.Valid()
      ensures nonAcademic.attendance.Get(kind) == WithCount(old(nonAcademic.attendance.Get(kind)), slot, val)
      ensures forall k :: k != kind ==> nonAcademic.attendance.Get(k) == old(nonAcademic.attendance.Get(k))
      ensures nonAcademic.volunteer == old(nonAcademic.volunteer) && nonAcademic.behavior == old(nonAcademic.behavior)
    {
      var newRow := WithCount(nonAcademic.attendance.Get(kind), slot, val);
      AttendanceEditKeepsValid(nonAcademic.attendance, kind, slot, val);
      nonAcademic.attendance := nonAcademic.attendance.With(kind, newRow);
    }

    /** Volunteer hours entry: the number is stored as typed. */
    method UpdateVolunteerHours(hours: real)
      modifies nonAcademic
      ensures nonAcademic.volunteer == old(nonAcademic.volunteer).(hours := hours)
      ensures nonAcademic.attendance == old(nonAcademic.attendance) && nonAcademic.behavior == old(nonAcademic.behavior)
    {
      nonAcademic.volunteer := nonAcademic.volunteer.(hours := hours);
    }

    /** Volunteer policy selector. */
    method UpdateVolunteerCase(c: SpecialCase)
      modifies nonAcademic
      ensures nonAcademic.volunteer == old(nonAcademic.volunteer).(specialCase := c)
      ensures nonAcademic.attendance == old(nonAcademic.attendance) && nonAcademic.behavior == old(nonAcademic.behavior)
    {
      nonAcademic.volunteer := nonAcademic.volunteer.(specialCase := c);
    }

    /** Behaviour entry: field `field` of grade `g` is overwritten as typed (no clamping). */
    method UpdateBehavior(g: Grade, field: BehaviorField, val: real)
      modifies nonAcademic
      ensures nonAcademic.behavior.Get(g) == old(nonAcademic.behavior.Get(g)).With(field, val)
      ensures forall h: Grade :: h != g ==> nonAcademic.behavior.Get(h) == old(nonAcademic.behavior.Get(h))
      ensures nonAcademic.attendance == old(nonAcademic.attendance) && nonAcademic.volunteer == old(nonAcademic.volunteer)
    {
      nonAcademic.behavior := nonAcademic.behavior.With(g, nonAcademic.behavior.Get(g).With(field, val));
    }

    /** The bookmark button on a school's page. */
    method ToggleBookmark(schoolId: string)
      modifies this
      ensures bookmarks == Bookmarks.Toggle(old(bookmarks), schoolId)
      ensures semesters == old(semesters) && nonAcademic == old(nonAcademic)
    {
      bookmarks := Bookmarks.Toggle(bookmarks, schoolId);
    }
  }

  class Session {
    /** The application's single initial non-academic object. */
    const initialRecord: NonAcademicRecord
    var user: Profile?

    constructor ()
      ensures fresh(initialRecord) && initialRecord.Data() == InitialNonAcademic
      ensures initialRecord.Valid()
      ensures user == null
    {
      initialRecord := new NonAcademicRecord();
      user := null;
    }

    /**
     * Sign-in as the application does it: an empty id is refused; otherwise
     * a new user is created whose non-academic data IS the initial object.
     */
    method Login(id: string) returns (ok: bool)
      modifies this
      ensures ok <==> id != ""
      ensures !ok ==> user == old(user)
      ensures ok ==> (user != null && fresh(user) && user.id == id
                      && user.semesters == map[] && user.bookmarks == []
                      && user.nonAcademic == initialRecord)
    {
      ok := id != "";
      if ok {
        user := new Profile(id, initialRecord);
      }
    }

    /** Sign-in that gives the new user a fresh copy of the initial record. */
    method LoginWithFreshRecord(id: string) returns (ok: bool)
      modifies this
      ensures ok <==> id != ""
      ensures !ok ==> user == old(user)
      ensures ok ==> (user != null && fresh(user) && user.id == id
                      && user.semesters == map[] && user.bookmarks == []
                      && fresh(user.nonAcademic) && user.nonAcademic.Data() == InitialNonAcademic
                      && user.nonAcademic.Valid())
    {
      ok := id != "";
      if ok {
        var record := new NonAcademicRecord();
        user := new Profile(id, record);
      }
    }

    /** Sign-out, when the user confirms it. */
    method Logout(confirmed: bool)
      modifies this
      ensures user == if confirmed then null else old(user)
    {
      if confirmed {
        user := null;
      }
    }
  }

  /**
   * As written: user "a" records two absences in grade 1 and signs out;
   * user "b" then signs in and finds those two absences in their record.
   */
  method SecondLoginInheritsEdits() returns (absencesOfB: real)
    ensures absencesOfB == 2.0
  {
    var app := new Session();
    var ok := app.Login("a");
    app.user.UpdateAttendance(Absences, 0, 2.0);
    app.Logout(true);
    ok := app.Login("b");
    absencesOfB := app.user.nonAcademic.attendance.absences[0];
  }

  /** With a fresh copy per sign-in, user "b" starts from zero absences. */
  method SecondLoginStartsClean() returns (absencesOfB: real)
    ensures absencesOfB == 0.0
  {
    var app := new Session();
    var ok := app.LoginWithFreshRecord("a");
    app.user.UpdateAttendance(Absences, 0, 2.0);
    app.Logout(true);
    ok := app.LoginWithFreshRecord("b");
    absencesOfB := app.user.nonAcademic.attendance.absences[0];
  }
}
