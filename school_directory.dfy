/**
 * Identity resolution against the school's two sources
 * (app/services/SchoolServices/auth.py): the staff listing fetched over HTTP
 * when the service object is built, then the `students` table. Both sources
 * are given as snapshots, so resolution is a function of the query email and
 * the two snapshots.
 */
module SchoolDirectory {
  import opened Wrappers

  /** The pydantic `User` a lookup returns: a person of the school. */
  datatype Person = Person(
    uid: string,
    displayName: string,
    image: Option<string>,
    leaderClasses: Option<seq<string>>,
    role: string)

  /**
   * What `check_user_in_school_db` returns: a `ChekUserResponse`, or, for an
   * empty email, a bare dict with a `status` key and no `status_code` attribute.
   */
  datatype CheckResult =
    | Response(message: string, statusCode: int, user: Option<Person>)
    | PlainDict(message: string, status: int)

  /**
   * One element of the listing's `value` array. A None field is a key the
   * entry lacks: no `email` key makes `i['email']` raise; no `__metadata.id`
   * or no `name` makes building the `User` fail.
   */
  datatype TeacherEntry = TeacherEntry(
    email: Option<string>,
    uid: Option<string>,
    name: Option<string>,
    image: Option<string>,
    classStr: Option<string>)

  /**
   * The fetched staff listing: `FeedFault` when `raise_for_status`, the JSON
   * decoding or the iteration over `value` raises; otherwise the entries.
   */
  datatype TeacherFeed = FeedFault | Feed(entries: seq<TeacherEntry>)

  /** The row `fetchone` returns; a None column is SQL NULL. */
  datatype StudentRow = StudentRow(
    personId: Option<string>,
    firstName: Option<string>,
    lastName: Option<string>,
    patronymic: Option<string>)

  /**
   * The student query: a MySQL connector `Error` while connecting, executing
   * or fetching; no matching row; or the first matching row.
   */
  datatype StudentSource = ConnectorError | NoRow | Row(row: StudentRow)

  /** What `_check_student` does: returns a person, returns None, or raises. */
  datatype StudentCheck = Student(person: Person) | NoStudent | Raises

  const MsgFound := "Пользователь найден!"
  const MsgNotFound := "Пользователь не найден!"
  const MsgNoEmail := "Email не предоставлен"

  // ---------------------------------------------------------------------------
  // `str.split(',')` on the class string

  /** Python's `s.split(',')`: at least one part, empty parts kept. */
  function SplitOnComma(s: string): (parts: seq<string>)
    ensures |parts| >= 1
    decreases |s|
  {
    if s == [] then [""]
    else
      var rest := SplitOnComma(s[1..]);
      if s[0] == ',' then [""] + rest
      else [[s[0]] + rest[0]] + rest[1..]
  }

  /** `','.join(parts)`, the inverse of the split. */
  function JoinWithComma(parts: seq<string>): string
    requires |parts| >= 1
  {
    if |parts| == 1 then parts[0] else parts[0] + "," + JoinWithComma(parts[1..])
  }

  lemma {:induction false} JoinSplit(s: string)
    ensures JoinWithComma(SplitOnComma(s)) == s
    decreases |s|
  {
    if s != [] {
      var rest := SplitOnComma(s[1..]);
      JoinSplit(s[1..]);
      if s[0] == ',' {
        assert SplitOnComma(s) == [""] + rest;
        assert ([""] + rest)[1..] == rest;
      } else {
        var parts := [[s[0]] + rest[0]] + rest[1..];
        assert SplitOnComma(s) == parts;
        if |rest| == 1 {
          assert JoinWithComma(parts) == [s[0]] + rest[0];
        } else {
          assert parts[1..] == rest[1..];
          assert JoinWithComma(rest) == rest[0] + "," + JoinWithComma(rest[1..]);
        }
      }
    }
  }

  lemma {:induction false} SplitPartsHaveNoComma(s: string)
    ensures forall i :: 0 <= i < |SplitOnComma(s)| ==> ',' !in SplitOnComma(s)[i]
    decreases |s|
  {
    if s != [] {
      SplitPartsHaveNoComma(s[1..]);
    }
  }

  /** Splitting a comma-free prefix glued to the rest extends the first part. */
  lemma {:induction false} SplitCommaFreePrefix(p: string, x: string)
    requires ',' !in p
    ensures SplitOnComma(p + x) == [p + SplitOnComma(x)[0]] + SplitOnComma(x)[1..]
    decreases |p|
  {
    if p != [] {
      assert (p + x)[1..] == p[1..] + x;
      SplitCommaFreePrefix(p[1..], x);
      assert [p[0]] + (p[1..] + SplitOnComma(x)[0]) == p + SplitOnComma(x)[0];
    } else {
      var parts := SplitOnComma(x);
      assert p + x == x && p + parts[0] == parts[0];
      assert [parts[0]] + parts[1..] == parts;
    }
  }

  lemma {:induction false} SplitJoin(parts: seq<string>)
    requires |parts| >= 1
    requires forall i :: 0 <= i < |parts| ==> ',' !in parts[i]
    ensures SplitOnComma(JoinWithComma(parts)) == parts
    decreases |parts|
  {
    if |parts| == 1 {
      SplitCommaFreePrefix(parts[0], "");
      assert parts[0] + "" == parts[0];
    } else {
      var tail := JoinWithComma(parts[1..]);
      SplitJoin(parts[1..]);
      assert parts[0] + "," + tail == parts[0] + ("," + tail);
      SplitCommaFreePrefix(parts[0], "," + tail);
      assert ("," + tail)[1..] == tail;
      assert SplitOnComma("," + tail) == [""] + parts[1..];
      assert parts[0] + "" == parts[0];
    }
  }

  /**
   * `leader_classes`: the class string split on commas when it is present
   * and non-empty, otherwise None.
   */
  function LeaderClasses(classStr: Option<string>): (r: Option<seq<string>>)
    ensures r.Some? <==> classStr.Some? && classStr.value != ""
    ensures r.Some? ==> |r.value| >= 1 && JoinWithComma(r.value) == classStr.value
  {
    if classStr.Some? && classStr.value != "" then
      JoinSplit(classStr.value);
      Some(SplitOnComma(classStr.value))
    else None
  }

  lemma LeaderClassesRoundTrip(classStr: Option<string>)
    ensures LeaderClasses(classStr).Some? <==> classStr.Some? && classStr.value != ""
    ensures LeaderClasses(classStr).Some? ==>
      && JoinWithComma(LeaderClasses(classStr).value) == classStr.value
      && forall i :: 0 <= i < |LeaderClasses(classStr).value| ==> ',' !in LeaderClasses(classStr).value[i]
  {
    if classStr.Some? && classStr.value != "" {
      JoinSplit(classStr.value);
      SplitPartsHaveNoComma(classStr.value);
    }
  }

  // ---------------------------------------------------------------------------
  // The staff listing

  /** The person built from a matching entry, or None when building it raises. */
  function TeacherPerson(e: TeacherEntry): (r: Option<Person>)
    ensures r.Some? <==> e.uid.Some? && e.name.Some?
    ensures r.Some? ==> && r.value.uid == e.uid.value && r.value.displayName == e.name.value
                        && r.value.image == e.image && r.value.leaderClasses == LeaderClasses(e.classStr)
                        && r.value.role == "teacher"
  {
    if e.uid.None? || e.name.None? then None
    else Some(Person(e.uid.value, e.name.value, e.image, LeaderClasses(e.classStr), "teacher"))
  }

  /**
   * The scan over the entries: the first entry whose email equals the query
   * decides; an entry without an email key before it aborts the scan, and the
   * exception is swallowed as "no teacher".
   */
  function FirstTeacher(entries: seq<TeacherEntry>, email: string): (r: Option<Person>)
    ensures r.Some? ==> r.value.role == "teacher"
    ensures r.Some? ==> exists k :: 0 <= k < |entries| && entries[k].email == Some(email)
    decreases |entries|
  {
    if entries == [] then None
    else if entries[0].email.None? then None
    else if entries[0].email.value == email then TeacherPerson(entries[0])
    else FirstTeacher(entries[1..], email)
  }

  /** `_check_teacher`: any fault in the listing means "no teacher". */
  function TeacherLookup(feed: TeacherFeed, email: string): (r: Option<Person>)
    ensures feed.FeedFault? ==> r.None?
    ensures r.Some? ==> r.value.role == "teacher"
  {
    match feed
    case FeedFault => None
    case Feed(entries) => FirstTeacher(entries, email)
  }

  /** `_check_teacher` as the loop it is. */
  method CheckTeacher(feed: TeacherFeed, email: string) returns (teacher: Option<Person>)
    ensures teacher == TeacherLookup(feed, email)
  {
    if feed.FeedFault? {
      return None;
    }
    var entries := feed.entries;
    for i := 0 to |entries|
      invariant FirstTeacher(entries[i..], email) == FirstTeacher(entries, email)
    {
      assert entries[i..][0] == entries[i] && entries[i..][1..] == entries[i + 1..];
      if entries[i].email.None? {
        return None;
      }
      if entries[i].email.value == email {
        return TeacherPerson(entries[i]);
      }
    }
    assert entries[|entries|..] == [];
    return None;
  }

  /** When an entry matches and every entry before it has a different email, that entry decides. */
  lemma {:induction false} FirstMatchDecides(entries: seq<TeacherEntry>, email: string, k: nat)
    requires k < |entries| && entries[k].email == Some(email)
    requires forall j :: 0 <= j < k ==> entries[j].email.Some? && entries[j].email.value != email
    ensures FirstTeacher(entries, email) == TeacherPerson(entries[k])
    decreases k
  {
    if k > 0 {
      FirstMatchDecides(entries[1..], email, k - 1);
    }
  }

  /** Conversely, a teacher is only ever found at the first entry with that email. */
  lemma {:induction false} FoundTeacherIsFirstMatch(entries: seq<TeacherEntry>, email: string) returns (k: nat)
    requires FirstTeacher(entries, email).Some?
    ensures k < |entries| && entries[k].email == Some(email)
    ensures forall j :: 0 <= j < k ==> entries[j].email.Some? && entries[j].email.value != email
    ensures FirstTeacher(entries, email) == TeacherPerson(entries[k])
    ensures FirstTeacher(entries, email).value.role == "teacher"
    decreases |entries|
  {
    if entries[0].email.value == email {
      k := 0;
    } else {
      var k' := FoundTeacherIsFirstMatch(entries[1..], email);
      k := k' + 1;
    }
  }

  /** No entry carries the query email: no teacher. */
  lemma {:induction false} NoMatchingEntryNoTeacher(entries: seq<TeacherEntry>, email: string)
    requires forall j :: 0 <= j < |entries| ==> entries[j].email != Some(email)
    ensures FirstTeacher(entries, email).None?
    decreases |entries|
  {
    if entries != [] && entries[0].email.Some? {
      NoMatchingEntryNoTeacher(entries[1..], email);
    }
  }

  /** An entry without an email key before the first match hides every later entry. */
  lemma {:induction false} MissingEmailKeyAbortsScan(entries: seq<TeacherEntry>, email: string, k: nat)
    requires k < |entries| && entries[k].email.None?
    requires forall j :: 0 <= j < k ==> entries[j].email.Some? && entries[j].email.value != email
    ensures FirstTeacher(entries, email).None?
    decreases k
  {
    if k > 0 {
      MissingEmailKeyAbortsScan(entries[1..], email, k - 1);
    }
  }

  // ---------------------------------------------------------------------------
  // The student table

  /** The display name is the three name columns joined by single spaces. */
  function FullName(first: string, last: string, patronymic: string): string {
    first + " " + last + " " + patronymic
  }

  /**
   * `_check_student`. A connector `Error` is caught and returns None; a
   * missing row makes `result.get` raise; a NULL name makes the concatenation
   * raise; a NULL person id fails the `User` validation.
   */
  function CheckStudent(source: StudentSource): (r: StudentCheck)
    ensures source.ConnectorError? ==> r.NoStudent?
    ensures source.NoRow? ==> r.Raises?
    ensures r.NoStudent? ==> source.ConnectorError?
    ensures r.Student? ==> source.Row? && r.person.role == "student"
    ensures source.Row? ==> r == StudentFromRow(source.row)
  {
    match source
    case ConnectorError => NoStudent
    case NoRow => Raises
    case Row(r) => StudentFromRow(r)
  }

  function StudentFromRow(r: StudentRow): (c: StudentCheck)
    ensures c.Student? <==> r.personId.Some? && r.firstName.Some? && r.lastName.Some? && r.patronymic.Some?
    ensures !c.Student? ==> c.Raises?
    ensures c.Student? ==> c.person.uid == r.personId.value && c.person.role == "student"
  {
    if r.personId.None? || r.firstName.None? || r.lastName.None? || r.patronymic.None? then Raises
    else Student(Person(r.personId.value, FullName(r.firstName.value, r.lastName.value, r.patronymic.value), None, None, "student"))
  }

  lemma StudentHit(r: StudentRow)
    requires r.personId.Some? && r.firstName.Some? && r.lastName.Some? && r.patronymic.Some?
    ensures CheckStudent(Row(r)).Student?
    ensures CheckStudent(Row(r)).person.uid == r.personId.value
    ensures CheckStudent(Row(r)).person.displayName == r.firstName.value + " " + r.lastName.value + " " + r.patronymic.value
    ensures CheckStudent(Row(r)).person.role == "student"
    ensures CheckStudent(Row(r)).person.leaderClasses.None?
  {
  }

  // ---------------------------------------------------------------------------
  // `check_user_in_school_db`

  function StudentResponse(c: StudentCheck): (r: CheckResult)
    ensures r.Response? && (r.statusCode == 200 <==> r.user.Some?)
  {
    match c
    case Student(p) => Response(MsgFound, 200, Some(p))
    case NoStudent => Response(MsgNotFound, 400, None)
    case Raises => Response(MsgNotFound, 500, None)
  }

  /**
   * An empty email is answered at once with a plain dict; otherwise the
   * teacher listing is consulted first and a hit there decides; otherwise the
   * student check decides, an exception from it being answered with 500.
   */
  function CheckUser(email: string, feed: TeacherFeed, students: StudentSource): (r: CheckResult)
    ensures r.PlainDict? <==> email == ""
    ensures email == "" ==> r == PlainDict(MsgNoEmail, 400)
    ensures r.Response? ==> r.statusCode == 200 || r.statusCode == 400 || r.statusCode == 500
    ensures r.Response? ==> (r.statusCode == 200 <==> r.user.Some?)
    ensures r.Response? && r.user.Some? ==> r.user.value.role == "teacher" || r.user.value.role == "student"
  {
    if email == "" then PlainDict(MsgNoEmail, 400)
    else match TeacherLookup(feed, email)
      case Some(t) => Response(MsgFound, 200, Some(t))
      case None => StudentResponse(CheckStudent(students))
  }

  /** A teacher hit answers 200 with that teacher whatever the student source holds. */
  lemma TeacherTakesPrecedence(email: string, feed: TeacherFeed, s1: StudentSource, s2: StudentSource)
    requires email != "" && TeacherLookup(feed, email).Some?
    ensures CheckUser(email, feed, s1) == CheckUser(email, feed, s2)
    ensures CheckUser(email, feed, s1) == Response(MsgFound, 200, TeacherLookup(feed, email))
  {
  }

  /** Faults in the staff listing are never reported: the student source decides. */
  lemma FeedFaultFallsThrough(email: string, students: StudentSource)
    requires email != ""
    ensures CheckUser(email, FeedFault, students) == StudentResponse(CheckStudent(students))
  {
  }

  /**
   * Whenever the staff listing yields no teacher, faulty or not, the student
   * check alone decides the answer.
   */
  lemma StudentDecidesWithoutTeacher(email: string, feed: TeacherFeed, students: StudentSource)
    requires email != "" && TeacherLookup(feed, email).None?
    ensures CheckUser(email, feed, students) == StudentResponse(CheckStudent(students))
  {
  }

  /**
   * With no teacher, a complete student row is answered 200 with that student
   * (uid = person id, the space-joined name, role "student"); a row with a
   * NULL person id or name part is answered 500.
   */
  lemma StudentRowAnswers(email: string, feed: TeacherFeed, row: StudentRow)
    requires email != "" && TeacherLookup(feed, email).None?
    ensures var r := CheckUser(email, feed, Row(row));
            if row.personId.Some? && row.firstName.Some? && row.lastName.Some? && row.patronymic.Some? then
              && r.Response? && r.statusCode == 200 && r.message == MsgFound && r.user.Some?
              && r.user.value.uid == row.personId.value
              && r.user.value.displayName == row.firstName.value + " " + row.lastName.value + " " + row.patronymic.value
              && r.user.value.role == "student"
            else r == Response(MsgNotFound, 500, None)
  {
  }

  /** With no teacher: a connector error reads as not found (400), a missing row as a server error (500). */
  lemma StudentFaultStatuses(email: string, feed: TeacherFeed)
    requires email != "" && TeacherLookup(feed, email).None?
    ensures CheckUser(email, feed, ConnectorError) == Response(MsgNotFound, 400, None)
    ensures CheckUser(email, feed, NoRow) == Response(MsgNotFound, 500, None)
  {
  }

  // ---------------------------------------------------------------------------
  // Intended behaviour (see Findings in README)

  /** `_check_student` with the missing-row check it lacks: no row means no student. */
  function CheckStudentIntended(source: StudentSource): (r: StudentCheck)
    ensures r.Raises? ==> source.Row?
    ensures source.NoRow? ==> r.NoStudent?
    ensures source != NoRow ==> r == CheckStudent(source)
  {
    match source
    case ConnectorError => NoStudent
    case NoRow => NoStudent
    case Row(r) => StudentFromRow(r)
  }

  /**
   * `check_user_in_school_db` answering an empty email with a 400 response
   * object, and an email that is in neither source with 400.
   */
  function CheckUserIntended(email: string, feed: TeacherFeed, students: StudentSource): (r: CheckResult)
    ensures r.Response?
    ensures r.statusCode == 200 <==> r.user.Some?
    ensures email == "" ==> r == Response(MsgNoEmail, 400, None)
  {
    if email == "" then Response(MsgNoEmail, 400, None)
    else match TeacherLookup(feed, email)
      case Some(t) => Response(MsgFound, 200, Some(t))
      case None => StudentResponse(CheckStudentIntended(students))
  }

  /**
   * As written, an email that is in neither source (no matching entry, no
   * student row) is reported as a server error.
   */
  lemma UnknownEmailIsServerErrorAsWritten(email: string, entries: seq<TeacherEntry>)
    requires email != ""
    requires forall j :: 0 <= j < |entries| ==> entries[j].email.Some? && entries[j].email.value != email
    ensures CheckUser(email, Feed(entries), NoRow) == Response(MsgNotFound, 500, None)
  {
    NoMatchingEntryNoTeacher(entries, email);
  }

  /** Intended: an email that is in neither source is reported as not found. */
  lemma UnknownEmailIsNotFoundIntended(email: string, entries: seq<TeacherEntry>)
    requires email != ""
    requires forall j :: 0 <= j < |entries| ==> entries[j].email.Some? && entries[j].email.value != email
    ensures CheckUserIntended(email, Feed(entries), NoRow) == Response(MsgNotFound, 400, None)
  {
    NoMatchingEntryNoTeacher(entries, email);
  }

  /** The two resolutions differ only on the empty email and the missing row. */
  lemma IntendedAgreesElsewhere(email: string, feed: TeacherFeed, students: StudentSource)
    requires email != "" && students != NoRow
    ensures CheckUserIntended(email, feed, students) == CheckUser(email, feed, students)
  {
  }
}
