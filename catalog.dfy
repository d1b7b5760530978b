/** The external catalog tables (courses from XDS, KSAs and competencies from
    ECCR, jobs), each keyed by its `reference`, and the routines that fill
    them: `save_courses` and the get-or-create steps of the serializers. */
module Catalog {
  import opened Outcomes
  import opened JsonValues
  import opened Remote
  import opened Xds
  import Elrr

  /** A catalog row: its name and when it was last saved (seconds). */
  datatype Entry = Entry(name: string, modified: int)

  /** `timedelta(days=1)` in seconds. */
  const Day: int := 86400
  /** `course_name_length` of `save_courses`. */
  const NameLength: nat := 255

  const XdsExceptionMsg: string := "XDS validation failed, please check logs for details"
  const EccrExceptionMsg: string := "ECCR validation failed, please check logs for details"

  /** `s[:n]` */
  function Truncated(s: string, n: nat): (t: string)
    ensures |t| <= n && |t| <= |s|
    ensures t == s[..|t|]
    ensures |s| <= n ==> t == s
  {
    if |s| <= n then s else s[..n]
  }

  /** One step of `save_courses`: a new reference, or a row last saved more
      than a day before `now`, gets the truncated name and the save time; a
      row saved within the last day is left alone. */
  function SaveOne(table: map<string, Entry>, hash: string, name: string, now: int): map<string, Entry> {
    if hash !in table || table[hash].modified < now - Day then table[hash := Entry(Truncated(name, NameLength), now)]
    else table
  }

  function SaveAll(table: map<string, Entry>, courses: seq<(string, string)>, now: int): map<string, Entry>
    decreases |courses|
  {
    if courses == [] then table
    else SaveAll(SaveOne(table, courses[0].0, courses[0].1, now), courses[1..], now)
  }

  function Hashes(courses: seq<(string, string)>): set<string> {
    set i | 0 <= i < |courses| :: courses[i].0
  }

  /** Saving leaves one row per distinct reference: the old ones and one for
      each hash of the list. */
  lemma {:induction false} SaveAllKeys(table: map<string, Entry>, courses: seq<(string, string)>, now: int)
    ensures SaveAll(table, courses, now).Keys == table.Keys + Hashes(courses)
    decreases |courses|
  {
    if courses != [] {
      SaveAllKeys(SaveOne(table, courses[0].0, courses[0].1, now), courses[1..], now);
      assert Hashes(courses) == {courses[0].0} + Hashes(courses[1..]) by {
        forall h | h in Hashes(courses) ensures h in {courses[0].0} + Hashes(courses[1..]) {
          var i :| 0 <= i < |courses| && courses[i].0 == h;
          if i > 0 {
            assert courses[1..][i - 1].0 == h;
          }
        }
        forall h | h in Hashes(courses[1..]) ensures h in Hashes(courses) {
          var i :| 0 <= i < |courses[1..]| && courses[1..][i].0 == h;
          assert courses[i + 1].0 == h;
        }
      }
    }
  }

  /** Every name written is at most 255 characters, so a table whose names fit
      keeps fitting. */
  lemma {:induction false} SaveAllNamesFit(table: map<string, Entry>, courses: seq<(string, string)>, now: int)
    requires forall h :: h in table ==> |table[h].name| <= NameLength
    ensures var t := SaveAll(table, courses, now); forall h :: h in t ==> |t[h].name| <= NameLength
    decreases |courses|
  {
    if courses != [] {
      var next := SaveOne(table, courses[0].0, courses[0].1, now);
      assert forall h :: h in next ==> |next[h].name| <= NameLength;
      SaveAllNamesFit(next, courses[1..], now);
      assert SaveAll(table, courses, now) == SaveAll(next, courses[1..], now);
    }
  }

  /** A row saved less than a day before `now` keeps its name and time. */
  lemma {:induction false} SaveAllKeepsRecent(table: map<string, Entry>, courses: seq<(string, string)>, now: int, h: string)
    requires h in table && table[h].modified >= now - Day
    ensures h in SaveAll(table, courses, now) && SaveAll(table, courses, now)[h] == table[h]
    decreases |courses|
  {
    if courses != [] {
      SaveAllKeepsRecent(SaveOne(table, courses[0].0, courses[0].1, now), courses[1..], now, h);
    }
  }

  /** When a reference first appears at position `i` and its row is new or
      stale, the row gets that entry's truncated name: later duplicates in the
      same list find a row saved just now and leave it. */
  lemma {:induction false} SaveAllFirstWins(table: map<string, Entry>, courses: seq<(string, string)>, now: int, i: nat)
    requires i < |courses|
    requires forall j :: 0 <= j < i ==> courses[j].0 != courses[i].0
    requires courses[i].0 !in table || table[courses[i].0].modified < now - Day
    ensures var t := SaveAll(table, courses, now);
      courses[i].0 in t && t[courses[i].0] == Entry(Truncated(courses[i].1, NameLength), now)
    decreases |courses|
  {
    var next := SaveOne(table, courses[0].0, courses[0].1, now);
    if i == 0 {
      SaveAllKeepsRecent(next, courses[1..], now, courses[0].0);
    } else {
      assert courses[1..][i - 1] == courses[i];
      SaveAllFirstWins(next, courses[1..], now, i - 1);
    }
  }

  /** The name column a validated name becomes: `None` violates NOT NULL,
      anything else is stored as its text. */
  function StoredName(name: Json): (r: Result<string>)
    ensures r.Err? <==> name.JNull?
    ensures r.Err? ==> r.error == IntegrityError
    ensures name.JStr? ==> r == Ok(name.s)
  {
    if name.JNull? then Err(IntegrityError) else Ok(Elrr.IdText(name))
  }

  /** The outcome of the `try` around validate-then-create: any failure, from
      the validator or from the insert, becomes a ValidationError carrying
      `message`; success gives the name of the new row. */
  function Admitted(validated: Result<Json>, message: string): (r: Result<string>)
    ensures r.Ok? <==> validated.Ok? && !validated.value.JNull?
    ensures r.Err? ==> r.error == ValidationError(message)
    ensures r.Ok? ==> Ok(r.value) == StoredName(validated.value)
  {
    match validated
    case Err(_) => Err(ValidationError(message))
    case Ok(name) =>
      match StoredName(name)
      case Err(_) => Err(ValidationError(message))
      case Ok(s) => Ok(s)
  }

  /** The ECCR item validator the serializers call: each call takes the next
      scripted answer (a name, or an exception); once the script is exhausted
      the registry no longer answers. */
  class EccrValidator {
    var answers: seq<Result<Json>>
    var asked: seq<string>

    constructor (script: seq<Result<Json>>)
      ensures answers == script && asked == []
    {
      answers := script;
      asked := [];
    }

    method Validate(reference: string) returns (r: Result<Json>)
      modifies this
      ensures asked == old(asked) + [reference]
      ensures old(answers) == [] ==> r == Err(ConnectionError) && answers == []
      ensures old(answers) != [] ==> r == old(answers)[0] && answers == old(answers)[1..]
    {
      asked := asked + [reference];
      if answers == [] {
        r := Err(ConnectionError);
      } else {
        r := answers[0];
        answers := answers[1..];
      }
    }
  }

  /** A job row (`Job`, keyed by its reference). */
  datatype Job = Job(name: string, jobType: string)

  /** The validated data of a nested job: the reference is required, name and
      type default to blank. */
  datatype JobData = JobData(reference: string, name: string, jobType: string)

  /** The two ECCR-backed tables. */
  datatype EccrTable = KsaTable | CompetencyTable

  class Tables {
    var courses: map<string, Entry>
    var ksas: map<string, Entry>
    var competencies: map<string, Entry>
    var jobs: map<string, Job>

    constructor ()
      ensures courses == map[] && ksas == map[] && competencies == map[] && jobs == map[]
    {
      courses := map[];
      ksas := map[];
      competencies := map[];
      jobs := map[];
    }

    function EccrRows(t: EccrTable): map<string, Entry>
      reads this
    {
      if t == KsaTable then ksas else competencies
    }

    /** `save_courses(course_list)` at time `now`. */
    method SaveCourses(courseList: seq<(string, string)>, now: int)
      modifies this
      ensures courses == SaveAll(old(courses), courseList, now)
      ensures ksas == old(ksas) && competencies == old(competencies) && jobs == old(jobs)
    {
      var i := 0;
      while i < |courseList|
        invariant 0 <= i <= |courseList|
        invariant SaveAll(courses, courseList[i..], now) == SaveAll(old(courses), courseList, now)
        invariant ksas == old(ksas) && competencies == old(competencies) && jobs == old(jobs)
      {
        var (courseHash, courseName) := courseList[i];
        ghost var before := courses;
        var isNew := courseHash !in courses;
        if isNew {
          courses := courses[courseHash := Entry("", now)];
        }
        if isNew || courses[courseHash].modified < now - Day {
          courses := courses[courseHash := Entry(Truncated(courseName, NameLength), now)];
        }
        assert courses == SaveOne(before, courseHash, courseName, now);
        assert courseList[i..][1..] == courseList[i + 1..];
        i := i + 1;
      }
      assert courseList[i..] == [];
    }

    /** `_get_or_create_course`: an existing course is reused without asking
        XDS; otherwise XDS is asked and a course row created from the name it
        gives. Any failure leaves the table as it was and raises a
        ValidationError. Returns the course's reference. */
    method ResolveCourse(xds: Service, xdsBase: string, reference: string, now: int) returns (r: Result<string>)
      requires xdsBase != []
      modifies this, xds
      ensures ksas == old(ksas) && competencies == old(competencies) && jobs == old(jobs)
      ensures reference in old(courses) ==>
        r == Ok(reference) && courses == old(courses)
        && xds.sent == old(xds.sent) && xds.script == old(xds.script)
      ensures reference !in old(courses) ==>
        xds.sent == old(xds.sent) + [ExperienceRequest(xdsBase, reference)]
        && xds.script == Rest(old(xds.script))
        && var admitted := Admitted(ValidateXdsCourse(Next(old(xds.script))), XdsExceptionMsg);
           (r.Ok? <==> admitted.Ok?)
           && (r.Ok? ==> r.value == reference && courses == old(courses)[reference := Entry(admitted.value, now)])
           && (r.Err? ==> r == Err(admitted.error) && courses == old(courses))
    {
      if reference in courses {
        return Ok(reference);
      }
      var reply := xds.Exchange(ExperienceRequest(xdsBase, reference));
      var admitted := Admitted(ValidateXdsCourse(reply), XdsExceptionMsg);
      if admitted.Err? {
        return Err(admitted.error);
      }
      courses := courses[reference := Entry(admitted.value, now)];
      r := Ok(reference);
    }

    /** `_get_or_create_ksa`, and the competency lookup of the plan-competency
        serializer: an existing row is reused without asking ECCR; otherwise
        the validator is asked and a row created from the name it gives. Any
        failure leaves the tables as they were and raises a ValidationError. */
    method ResolveEccrItem(validator: EccrValidator, table: EccrTable, reference: string, now: int)
      returns (r: Result<string>)
      modifies this, validator
      ensures courses == old(courses) && jobs == old(jobs)
      ensures table == KsaTable ==> competencies == old(competencies)
      ensures table == CompetencyTable ==> ksas == old(ksas)
      ensures reference in old(EccrRows(table)) ==>
        r == Ok(reference) && EccrRows(table) == old(EccrRows(table))
        && validator.asked == old(validator.asked) && validator.answers == old(validator.answers)
      ensures reference !in old(EccrRows(table)) ==>
        validator.asked == old(validator.asked) + [reference]
        && var answer := if old(validator.answers) == [] then Err(ConnectionError) else old(validator.answers)[0];
           var admitted := Admitted(answer, EccrExceptionMsg);
           (r.Ok? <==> admitted.Ok?)
           && (r.Ok? ==> r.value == reference && EccrRows(table) == old(EccrRows(table))[reference := Entry(admitted.value, now)])
           && (r.Err? ==> r == Err(admitted.error) && EccrRows(table) == old(EccrRows(table)))
    {
      if reference in EccrRows(table) {
        return Ok(reference);
      }
      var answer := validator.Validate(reference);
      var admitted := Admitted(answer, EccrExceptionMsg);
      if admitted.Err? {
        return Err(admitted.error);
      }
      if table == KsaTable {
        ksas := ksas[reference := Entry(admitted.value, now)];
      } else {
        competencies := competencies[reference := Entry(admitted.value, now)];
      }
      r := Ok(reference);
    }

    /** `Job.objects.get_or_create(reference=..., defaults=job_data)`: an
        existing job is returned untouched, otherwise one is created from the
        data. */
    method GetOrCreateJob(data: JobData) returns (created: bool)
      modifies this
      ensures courses == old(courses) && ksas == old(ksas) && competencies == old(competencies)
      ensures created <==> data.reference !in old(jobs)
      ensures jobs == if created then old(jobs)[data.reference := Job(data.name, data.jobType)] else old(jobs)
      ensures jobs.Keys == old(jobs).Keys + {data.reference}
      ensures |jobs| == |old(jobs)| + (if created then 1 else 0)
    {
      created := data.reference !in jobs;
      if created {
        jobs := jobs[data.reference := Job(data.name, data.jobType)];
      }
    }
  }
}
