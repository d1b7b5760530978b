/** Course progress from xAPI statements (xAPI 1.0.3, IEEE 9274.1.1, part two,
    section 2.4): turning statements into course records, dropping duplicate
    courses, filtering statements by platform and courses by exclusion, and
    picking the learner's account name out of a JWT payload. */
module Xapi {
  import opened Outcomes
  import opened JsonValues

  const CourseActivityType: string := "https://w3id.org/xapi/cmi5/activitytype/course"
  const LessonActivityType: string := "https://w3id.org/xapi/cmi5/activitytype/lesson"

  /** The three statement groups the progress view asks for. */
  datatype Progress = Completed | Enrolled | InProgress

  /** The `statement_type` string of each group, copied into every record. */
  function ProgressName(p: Progress): string {
    match p
    case Completed => "completed"
    case Enrolled => "enrolled"
    case InProgress => "in-progress"
  }

  /** `COURSE_PROGRESS_VERBS`: the verb IRIs queried for each group. */
  function ProgressVerbs(p: Progress): seq<string> {
    match p
    case Completed => ["http://adlnet.gov/expapi/verbs/completed"]
    case Enrolled => ["https://xapi.edlm/profiles/edlm-lms/concepts/verbs/enrolled"]
    case InProgress => ["http://activitystrea.ms/schema/1.0/start", "http://id.tincanapi.com/verb/viewed"]
  }

  /** One `course_data` dict; `kind` is its "type" entry. */
  datatype CourseRecord = CourseRecord(courseId: Json, courseName: Json, platform: Json, kind: string, timestamp: Json)

  /** `j.get(key, default)`: only a dict has `.get`; anything else raises
      AttributeError. A key stored with a null value gives that null. */
  function Lookup(j: Json, key: string, default: Json): (r: Result<Json>)
    ensures r.Ok? <==> j.JObj?
    ensures r.Ok? ==> r.value == GetOr(j.fields, key, default)
    ensures r.Err? ==> r.error == Uncaught
  {
    if j.JObj? then Ok(GetOr(j.fields, key, default)) else Err(Uncaught)
  }

  /** What `for x in j` walks over: a list's items, a dict's keys, a string's
      characters; other values are not iterable. */
  function Iterated(j: Json): (r: Result<seq<Json>>)
    ensures r.Err? <==> !(j.JList? || j.JObj? || j.JStr?)
    ensures r.Err? ==> r.error == Uncaught
    ensures j.JList? ==> r == Ok(j.items)
  {
    match j
    case JList(items) => Ok(items)
    case JObj(f) => Ok(seq(|f|, i requires 0 <= i < |f| => JStr(f[i].key)))
    case JStr(s) => Ok(seq(|s|, i requires 0 <= i < |s| => JStr([s[i]])))
    case _ => Err(Uncaught)
  }

  /** `activity.get("definition", {})`, which must be a dict for the lookups
      that follow. */
  function ActivityDefinition(activity: Json): (r: Result<Dict>)
    ensures r.Ok? ==> activity.JObj?
    ensures r.Err? ==> r.error == Uncaught
  {
    var definition :- Lookup(activity, "definition", JObj([]));
    if definition.JObj? then Ok(definition.fields) else Err(Uncaught)
  }

  /** The `definition.type` of an activity. */
  function ActivityType(activity: Json): Result<Json> {
    var definition :- ActivityDefinition(activity);
    Ok(GetOr(definition, "type", JStr("")))
  }

  /** The record an activity gives: its id (default ""), the English entry of
      its definition's name (default "Unknown Course"), and the statement's
      platform and timestamp. */
  function NamedRecord(activity: Dict, definition: Dict, platform: Json, kind: Progress, timestamp: Json): (r: Result<CourseRecord>)
    ensures r.Ok? ==> r.value.kind == ProgressName(kind) && r.value.platform == platform && r.value.timestamp == timestamp
    ensures r.Err? ==> r.error == Uncaught
  {
    var nameDic := GetOr(definition, "name", JObj([]));
    if !nameDic.JObj? then Err(Uncaught)
    else
      var courseName := GetOr(nameDic.fields, "en", JStr("Unknown Course"));
      Ok(CourseRecord(GetOr(activity, "id", JStr("")), courseName, platform, ProgressName(kind), timestamp))
  }

  /** An in-progress statement's parent activity gives a record only when it
      is of the course type. */
  function ParentEntry(activity: Json, platform: Json, kind: Progress, timestamp: Json): (r: Result<seq<CourseRecord>>)
    ensures r.Ok? ==> ActivityType(activity).Ok?
    ensures r.Ok? ==> |r.value| == (if ActivityType(activity).value == JStr(CourseActivityType) then 1 else 0)
    ensures r.Ok? ==> forall c :: c in r.value ==> c.kind == ProgressName(kind) && c.platform == platform && c.timestamp == timestamp
    ensures r.Err? ==> r.error == Uncaught
  {
    var definition :- ActivityDefinition(activity);
    if GetOr(definition, "type", JStr("")) == JStr(CourseActivityType) then
      var record :- NamedRecord(activity.fields, definition, platform, kind, timestamp);
      Ok([record])
    else Ok([])
  }

  /** The records of the parent activities, in order; the first activity of an
      unexpected shape aborts. */
  function ParentCourses(parents: seq<Json>, platform: Json, kind: Progress, timestamp: Json): (r: Result<seq<CourseRecord>>)
    ensures r.Ok? ==> forall c :: c in r.value ==> c.kind == ProgressName(kind)
    ensures r.Err? ==> r.error == Uncaught
    decreases |parents|
  {
    if parents == [] then Ok([])
    else
      var before :- ParentCourses(parents[..|parents| - 1], platform, kind, timestamp);
      var last :- ParentEntry(parents[|parents| - 1], platform, kind, timestamp);
      Ok(before + last)
  }

  /** A completed or enrolled statement's main object gives one record, except
      that a completed statement about anything but a course gives none. */
  function ObjectEntry(statement: Dict, platform: Json, kind: Progress, timestamp: Json): (r: Result<seq<CourseRecord>>)
    requires kind != InProgress
    ensures r.Ok? ==> forall c :: c in r.value ==> c.kind == ProgressName(kind)
    ensures r.Err? ==> r.error == Uncaught
  {
    var activity := GetOr(statement, "object", JObj([]));
    var definition :- ActivityDefinition(activity);
    if kind == Completed && GetOr(definition, "type", JStr("")) != JStr(CourseActivityType) then Ok([])
    else
      var record :- NamedRecord(activity.fields, definition, platform, kind, timestamp);
      Ok([record])
  }

  /** The records one statement contributes to `process_course_statements`.
      The platform defaults to "Unknown Platform" and the timestamp to "". */
  function StatementCourses(statement: Json, kind: Progress): (r: Result<seq<CourseRecord>>)
    ensures r.Ok? ==> forall c :: c in r.value ==> c.kind == ProgressName(kind)
    ensures r.Err? ==> r.error == Uncaught
  {
    if !statement.JObj? then Err(Uncaught)
    else
      var context := GetOr(statement.fields, "context", JObj([]));
      if !context.JObj? then Err(Uncaught)
      else
        var platform := GetOr(context.fields, "platform", JStr("Unknown Platform"));
        var timestamp := GetOr(statement.fields, "timestamp", JStr(""));
        if kind == InProgress then
          var contextActivities := GetOr(context.fields, "contextActivities", JObj([]));
          if !contextActivities.JObj? then Err(Uncaught)
          else
            var parents :- Iterated(GetOr(contextActivities.fields, "parent", JList([])));
            ParentCourses(parents, platform, kind, timestamp)
        else ObjectEntry(statement.fields, platform, kind, timestamp)
  }

  /** All records of a statement list, statement by statement. */
  function AllCourses(statements: seq<Json>, kind: Progress): (r: Result<seq<CourseRecord>>)
    ensures r.Ok? ==> forall c :: c in r.value ==> c.kind == ProgressName(kind)
    ensures r.Err? ==> r.error == Uncaught
    decreases |statements|
  {
    if statements == [] then Ok([])
    else
      var before :- AllCourses(statements[..|statements| - 1], kind);
      var last :- StatementCourses(statements[|statements| - 1], kind);
      Ok(before + last)
  }

  lemma {:induction false} ParentCoursesPrefixFails(parents: seq<Json>, k: nat, platform: Json, kind: Progress, timestamp: Json)
    requires k <= |parents| && ParentCourses(parents[..k], platform, kind, timestamp).Err?
    ensures ParentCourses(parents, platform, kind, timestamp).Err?
    decreases |parents| - k
  {
    if k < |parents| {
      assert parents[..k + 1][..k] == parents[..k];
      ParentCoursesPrefixFails(parents, k + 1, platform, kind, timestamp);
    } else {
      assert parents[..k] == parents;
    }
  }

  /** One more parent: its records are appended, or its failure is the statement's. */
  lemma ParentCoursesStep(parents: seq<Json>, j: nat, platform: Json, kind: Progress, timestamp: Json,
                          courses: seq<CourseRecord>, entry: Result<seq<CourseRecord>>)
    requires j < |parents| && ParentCourses(parents[..j], platform, kind, timestamp) == Ok(courses)
    requires entry == ParentEntry(parents[j], platform, kind, timestamp)
    ensures entry.Ok? ==> ParentCourses(parents[..j + 1], platform, kind, timestamp) == Ok(courses + entry.value)
    ensures entry.Err? ==> ParentCourses(parents, platform, kind, timestamp).Err?
  {
    assert parents[..j + 1][..j] == parents[..j];
    if entry.Err? {
      ParentCoursesPrefixFails(parents, j + 1, platform, kind, timestamp);
    }
  }

  lemma {:induction false} AllCoursesPrefixFails(statements: seq<Json>, k: nat, kind: Progress)
    requires k <= |statements| && AllCourses(statements[..k], kind).Err?
    ensures AllCourses(statements, kind).Err?
    decreases |statements| - k
  {
    if k < |statements| {
      assert statements[..k + 1][..k] == statements[..k];
      AllCoursesPrefixFails(statements, k + 1, kind);
    } else {
      assert statements[..k] == statements;
    }
  }

  lemma AllCoursesStep(statements: seq<Json>, i: nat, kind: Progress, courses: seq<CourseRecord>,
                       records: Result<seq<CourseRecord>>)
    requires i < |statements| && AllCourses(statements[..i], kind) == Ok(courses)
    requires records == StatementCourses(statements[i], kind)
    ensures records.Ok? ==> AllCourses(statements[..i + 1], kind) == Ok(courses + records.value)
    ensures records.Err? ==> AllCourses(statements, kind).Err?
  {
    assert statements[..i + 1][..i] == statements[..i];
    if records.Err? {
      AllCoursesPrefixFails(statements, i + 1, kind);
    }
  }

  /** The body of the loop of `process_course_statements` for one statement:
      the records it appends. */
  method StatementRecords(statement: Json, kind: Progress) returns (r: Result<seq<CourseRecord>>)
    ensures r == StatementCourses(statement, kind)
  {
    if !statement.JObj? {
      return Err(Uncaught);
    }
    var context := GetOr(statement.fields, "context", JObj([]));
    if !context.JObj? {
      return Err(Uncaught);
    }
    var platform := GetOr(context.fields, "platform", JStr("Unknown Platform"));
    var timestamp := GetOr(statement.fields, "timestamp", JStr(""));
    if kind != InProgress {
      return ObjectEntry(statement.fields, platform, kind, timestamp);
    }
    var contextActivities := GetOr(context.fields, "contextActivities", JObj([]));
    if !contextActivities.JObj? {
      return Err(Uncaught);
    }
    var parent := Iterated(GetOr(contextActivities.fields, "parent", JList([])));
    if parent.Err? {
      return Err(Uncaught);
    }
    var activities := parent.value;
    var courses: seq<CourseRecord> := [];
    var j := 0;
    while j < |activities|
      invariant 0 <= j <= |activities|
      invariant ParentCourses(activities[..j], platform, kind, timestamp) == Ok(courses)
    {
      var entry := ParentEntry(activities[j], platform, kind, timestamp);
      ParentCoursesStep(activities, j, platform, kind, timestamp, courses, entry);
      if entry.Err? {
        return Err(Uncaught);
      }
      courses := courses + entry.value;
      j := j + 1;
    }
    assert activities[..j] == activities;
    r := Ok(courses);
  }

  /** `process_course_statements`, on the statements the LRS returned. */
  method ProcessCourseStatements(statements: seq<Json>, kind: Progress) returns (r: Result<seq<CourseRecord>>)
    ensures r == AllCourses(statements, kind)
  {
    var courses: seq<CourseRecord> := [];
    var i := 0;
    while i < |statements|
      invariant 0 <= i <= |statements|
      invariant AllCourses(statements[..i], kind) == Ok(courses)
    {
      var records := StatementRecords(statements[i], kind);
      AllCoursesStep(statements, i, kind, courses, records);
      if records.Err? {
        return Err(Uncaught);
      }
      courses := courses + records.value;
      i := i + 1;
    }
    assert statements[..i] == statements;
    r := Ok(courses);
  }

  /** For completed statements, an object that is not a course gives no
      record; a course gives exactly one. */
  lemma CompletedKeepsOnlyCourses(statement: Dict, platform: Json, timestamp: Json)
    requires ObjectEntry(statement, platform, Completed, timestamp).Ok?
    ensures var activity := GetOr(statement, "object", JObj([]));
      ActivityType(activity).Ok?
      && |ObjectEntry(statement, platform, Completed, timestamp).value|
         == (if ActivityType(activity).value == JStr(CourseActivityType) then 1 else 0)
  {
  }

  /** How many parent activities are of the course type. */
  function CourseParents(parents: seq<Json>): nat
    decreases |parents|
  {
    if parents == [] then 0
    else
      var last := parents[|parents| - 1];
      CourseParents(parents[..|parents| - 1])
      + (if ActivityType(last) == Ok(JStr(CourseActivityType)) then 1 else 0)
  }

  /** An in-progress statement yields one record per course-typed parent
      activity, possibly none. */
  lemma {:induction false} InProgressOnePerCourseParent(parents: seq<Json>, platform: Json, timestamp: Json)
    requires ParentCourses(parents, platform, InProgress, timestamp).Ok?
    ensures |ParentCourses(parents, platform, InProgress, timestamp).value| == CourseParents(parents)
    decreases |parents|
  {
    if parents != [] {
      InProgressOnePerCourseParent(parents[..|parents| - 1], platform, timestamp);
    }
  }

  /** A statement whose context names no platform and which has no timestamp
      gets the defaults "Unknown Platform" and "" in every record. */
  lemma StatementDefaults(statement: Json, kind: Progress)
    requires statement.JObj? && !HasKey(statement.fields, "timestamp")
    requires var context := GetOr(statement.fields, "context", JObj([]));
      context.JObj? && !HasKey(context.fields, "platform")
    requires StatementCourses(statement, kind).Ok?
    ensures forall c :: c in StatementCourses(statement, kind).value ==>
      c.platform == JStr("Unknown Platform") && c.timestamp == JStr("")
  {
    if kind == InProgress {
      var context := GetOr(statement.fields, "context", JObj([]));
      var contextActivities := GetOr(context.fields, "contextActivities", JObj([]));
      var parents := Iterated(GetOr(contextActivities.fields, "parent", JList([]))).value;
      ParentCoursesDefaults(parents, JStr("Unknown Platform"), kind, JStr(""));
    }
  }

  lemma {:induction false} ParentCoursesDefaults(parents: seq<Json>, platform: Json, kind: Progress, timestamp: Json)
    requires ParentCourses(parents, platform, kind, timestamp).Ok?
    ensures forall c :: c in ParentCourses(parents, platform, kind, timestamp).value ==>
      c.platform == platform && c.timestamp == timestamp
    decreases |parents|
  {
    if parents != [] {
      ParentCoursesDefaults(parents[..|parents| - 1], platform, kind, timestamp);
    }
  }

  // ---- de-duplication and exclusion by course id ----

  /** Python's `==`/hash on ids: `True == 1` and `False == 0`. */
  function Key(id: Json): Json {
    if id.JBool? then JNum(if id.b then 1 else 0) else id
  }

  /** Lists and dicts cannot be put in a set. */
  predicate Hashable(id: Json) {
    !id.JList? && !id.JObj?
  }

  function IdKeys(courses: seq<CourseRecord>): set<Json> {
    set c | c in courses :: Key(c.courseId)
  }

  /** `remove_duplicates`: the first record of each course id, in their
      original order. `picks` names the position each kept record came from. */
  method RemoveDuplicates(courses: seq<CourseRecord>) returns (r: Result<seq<CourseRecord>>, ghost picks: seq<nat>)
    ensures r.Err? <==> exists i :: 0 <= i < |courses| && !Hashable(courses[i].courseId)
    ensures r.Err? ==> r.error == Uncaught
    ensures r.Ok? ==> |picks| == |r.value|
    ensures r.Ok? ==> forall k :: 0 <= k < |picks| ==> picks[k] < |courses| && r.value[k] == courses[picks[k]]
    ensures r.Ok? ==> forall k, l :: 0 <= k < l < |picks| ==> picks[k] < picks[l]
    ensures r.Ok? ==> forall k, j :: 0 <= k < |picks| && 0 <= j < picks[k] ==>
      Key(courses[j].courseId) != Key(courses[picks[k]].courseId)
    ensures r.Ok? ==> forall k, l :: 0 <= k < l < |r.value| ==> Key(r.value[k].courseId) != Key(r.value[l].courseId)
    ensures r.Ok? ==> IdKeys(r.value) == IdKeys(courses)
  {
    var ids: set<Json> := {};
    var unique: seq<CourseRecord> := [];
    picks := [];
    var i := 0;
    while i < |courses|
      invariant 0 <= i <= |courses|
      invariant forall j :: 0 <= j < i ==> Hashable(courses[j].courseId)
      invariant |picks| == |unique|
      invariant forall k :: 0 <= k < |picks| ==> picks[k] < i && unique[k] == courses[picks[k]]
      invariant forall k, l :: 0 <= k < l < |picks| ==> picks[k] < picks[l]
      invariant forall k, j :: 0 <= k < |picks| && 0 <= j < picks[k] ==>
        Key(courses[j].courseId) != Key(courses[picks[k]].courseId)
      invariant ids == IdKeys(unique) == IdKeys(courses[..i])
    {
      var course := courses[i];
      if !Hashable(course.courseId) {
        return Err(Uncaught), picks;
      }
      assert courses[..i + 1] == courses[..i] + [course];
      if Key(course.courseId) !in ids {
        forall j | 0 <= j < i ensures Key(courses[j].courseId) != Key(course.courseId) {
          assert courses[j] in courses[..i];
        }
        ids := ids + {Key(course.courseId)};
        unique := unique + [course];
        picks := picks + [i];
      }
      i := i + 1;
    }
    assert courses[..i] == courses;
    forall k, l | 0 <= k < l < |unique| ensures Key(unique[k].courseId) != Key(unique[l].courseId) {
      assert picks[k] < picks[l];
    }
    r := Ok(unique);
  }

  /** The courses whose id is not among `excluded`, in order. */
  function NotExcluded(courses: seq<CourseRecord>, excluded: set<Json>): seq<CourseRecord>
    decreases |courses|
  {
    if courses == [] then []
    else
      var last := courses[|courses| - 1];
      NotExcluded(courses[..|courses| - 1], excluded) + (if Key(last.courseId) in excluded then [] else [last])
  }

  /** A course survives exclusion exactly when it is in the list and its id is
      not excluded, so every copy of an excluded id goes. */
  lemma {:induction false} NotExcludedMembers(courses: seq<CourseRecord>, excluded: set<Json>, c: CourseRecord)
    ensures c in NotExcluded(courses, excluded) <==> c in courses && Key(c.courseId) !in excluded
    decreases |courses|
  {
    if courses != [] {
      NotExcludedMembers(courses[..|courses| - 1], excluded, c);
      assert courses == courses[..|courses| - 1] + [courses[|courses| - 1]];
    }
  }

  /** `filter_courses_by_exclusion`: the ids of the courses to exclude are
      gathered into a set, then the other list is filtered against it. */
  method FilterByExclusion(toFilter: seq<CourseRecord>, toExclude: seq<CourseRecord>) returns (r: Result<seq<CourseRecord>>)
    ensures r.Ok? <==> (forall c :: c in toExclude ==> Hashable(c.courseId)) && (forall c :: c in toFilter ==> Hashable(c.courseId))
    ensures r.Err? ==> r.error == Uncaught
    ensures r.Ok? ==> r.value == NotExcluded(toFilter, IdKeys(toExclude))
  {
    var excludedIds: set<Json> := {};
    var i := 0;
    while i < |toExclude|
      invariant 0 <= i <= |toExclude|
      invariant excludedIds == IdKeys(toExclude[..i])
      invariant forall c :: c in toExclude[..i] ==> Hashable(c.courseId)
    {
      if !Hashable(toExclude[i].courseId) {
        return Err(Uncaught);
      }
      assert toExclude[..i + 1] == toExclude[..i] + [toExclude[i]];
      excludedIds := excludedIds + {Key(toExclude[i].courseId)};
      i := i + 1;
    }
    assert toExclude[..i] == toExclude;
    var filtered: seq<CourseRecord> := [];
    var j := 0;
    while j < |toFilter|
      invariant 0 <= j <= |toFilter|
      invariant filtered == NotExcluded(toFilter[..j], excludedIds)
      invariant forall c :: c in toFilter[..j] ==> Hashable(c.courseId)
    {
      var course := toFilter[j];
      if !Hashable(course.courseId) {
        return Err(Uncaught);
      }
      assert toFilter[..j + 1] == toFilter[..j] + [course];
      assert toFilter[..j + 1][..j] == toFilter[..j];
      if Key(course.courseId) !in excludedIds {
        filtered := filtered + [course];
      }
      j := j + 1;
    }
    assert toFilter[..j] == toFilter;
    r := Ok(filtered);
  }

  // ---- platform filter ----

  function LowerChar(c: char): char {
    if 'A' <= c <= 'Z' then (c as int + 32) as char else c
  }

  /** `str.lower()` on the ASCII letters. */
  function Lower(s: string): (t: string)
    ensures |t| == |s|
  {
    seq(|s|, i requires 0 <= i < |s| => LowerChar(s[i]))
  }

  /** `statement.get("context", {}).get("platform", "")`, which must be text
      for `.lower()`. */
  function StatementPlatform(statement: Json): (r: Result<string>)
    ensures r.Err? ==> r.error == Uncaught
    ensures statement.JObj? && !HasKey(statement.fields, "context") ==> r == Ok("")
  {
    var context :- Lookup(statement, "context", JObj([]));
    var platform :- Lookup(context, "platform", JStr(""));
    if platform.JStr? then Ok(platform.s) else Err(Uncaught)
  }

  predicate OnPlatform(statement: Json, platform: string) {
    StatementPlatform(statement).Ok? && Lower(StatementPlatform(statement).value) == Lower(platform)
  }

  /** The test applied to one statement: its platform, lower-cased, against
      the wanted one, lower-cased. */
  function PlatformVerdict(statement: Json, platform: string): (r: Result<bool>)
    ensures r.Ok? <==> StatementPlatform(statement).Ok?
    ensures r.Ok? ==> (r.value <==> OnPlatform(statement, platform))
    ensures r.Err? ==> r.error == Uncaught
  {
    var statementPlatform :- StatementPlatform(statement);
    Ok(Lower(statementPlatform) == Lower(platform))
  }

  /** The statements on `platform`, in order. */
  function KeptByPlatform(statements: seq<Json>, platform: string): seq<Json>
    decreases |statements|
  {
    if statements == [] then []
    else
      var last := statements[|statements| - 1];
      KeptByPlatform(statements[..|statements| - 1], platform) + (if OnPlatform(last, platform) then [last] else [])
  }

  lemma {:induction false} KeptByPlatformMembers(statements: seq<Json>, platform: string, s: Json)
    ensures s in KeptByPlatform(statements, platform) <==> s in statements && OnPlatform(s, platform)
    decreases |statements|
  {
    if statements != [] {
      KeptByPlatformMembers(statements[..|statements| - 1], platform, s);
      assert statements == statements[..|statements| - 1] + [statements[|statements| - 1]];
    }
  }

  /** The platform filter as a function of the statements: the first
      statement whose platform cannot be read aborts it. */
  function PlatformFiltered(statements: seq<Json>, platform: string): (r: Result<seq<Json>>)
    ensures r.Err? ==> r.error == Uncaught
    decreases |statements|
  {
    if statements == [] then Ok([])
    else
      var last := statements[|statements| - 1];
      var before :- PlatformFiltered(statements[..|statements| - 1], platform);
      var keep :- PlatformVerdict(last, platform);
      Ok(before + (if keep then [last] else []))
  }

  /** The filter succeeds exactly when every statement's platform can be read,
      and then keeps the statements on the platform, in order. */
  lemma {:induction false} PlatformFilteredMeaning(statements: seq<Json>, platform: string)
    ensures var r := PlatformFiltered(statements, platform);
      (r.Ok? <==> forall i :: 0 <= i < |statements| ==> StatementPlatform(statements[i]).Ok?)
      && (r.Ok? ==> r.value == KeptByPlatform(statements, platform))
    decreases |statements|
  {
    if statements != [] {
      var n := |statements|;
      var front, last := statements[..n - 1], statements[n - 1];
      PlatformFilteredMeaning(front, platform);
      var before := PlatformFiltered(front, platform);
      if before.Err? {
        var i :| 0 <= i < n - 1 && !StatementPlatform(front[i]).Ok?;
        assert front[i] == statements[i];
      } else if PlatformVerdict(last, platform).Ok? {
        forall i | 0 <= i < n ensures StatementPlatform(statements[i]).Ok? {
          if i < n - 1 {
            assert front[i] == statements[i];
          }
        }
      }
    }
  }

  lemma PlatformFilteredStep(statements: seq<Json>, i: nat, platform: string, filtered: seq<Json>)
    requires i < |statements| && PlatformFiltered(statements[..i], platform) == Ok(filtered)
    ensures PlatformFiltered(statements[..i + 1], platform)
            == (match PlatformVerdict(statements[i], platform)
                case Err(e) => Err(e)
                case Ok(keep) => Ok(filtered + (if keep then [statements[i]] else [])))
  {
    assert statements[..i + 1][..i] == statements[..i];
  }

  lemma {:induction false} PlatformFilteredPrefixFails(statements: seq<Json>, k: nat, platform: string)
    requires k <= |statements| && PlatformFiltered(statements[..k], platform).Err?
    ensures PlatformFiltered(statements, platform).Err?
    decreases |statements| - k
  {
    if k < |statements| {
      assert statements[..k + 1][..k] == statements[..k];
      PlatformFilteredPrefixFails(statements, k + 1, platform);
    } else {
      assert statements[..k] == statements;
    }
  }

  /** `filter_statements_by_platform`: no platform keeps everything; otherwise
      the statements whose platform equals it ignoring case. */
  method FilterByPlatform(statements: seq<Json>, platform: string) returns (r: Result<seq<Json>>)
    ensures platform == "" ==> r == Ok(statements)
    ensures platform != "" ==> r == PlatformFiltered(statements, platform)
  {
    if platform == "" {
      return Ok(statements);
    }
    var filtered: seq<Json> := [];
    var i := 0;
    while i < |statements|
      invariant 0 <= i <= |statements|
      invariant PlatformFiltered(statements[..i], platform) == Ok(filtered)
    {
      var onPlatform := PlatformVerdict(statements[i], platform);
      PlatformFilteredStep(statements, i, platform, filtered);
      if onPlatform.Err? {
        PlatformFilteredPrefixFails(statements, i + 1, platform);
        return Err(Uncaught);
      }
      if onPlatform.value {
        filtered := filtered + [statements[i]];
      } else {
        assert filtered + [] == filtered;
      }
      i := i + 1;
    }
    assert statements[..i] == statements;
    r := Ok(filtered);
  }

  // ---- JWT account name ----

  /** `jwt_account_name` on the decoded payload: the value of the first field,
      in list order, whose value is truthy, else None. */
  function JwtAccountName(payload: Dict, fields: seq<string>): (r: Json)
    ensures !Truthy(r) ==> r == JNull && forall i :: 0 <= i < |fields| ==> !Truthy(Get(payload, fields[i]))
    ensures Truthy(r) ==> exists i :: (0 <= i < |fields| && r == Get(payload, fields[i])
      && forall j :: 0 <= j < i ==> !Truthy(Get(payload, fields[j])))
    decreases |fields|
  {
    if fields == [] then JNull
    else if Truthy(Get(payload, fields[0])) then Get(payload, fields[0])
    else
      var r := JwtAccountName(payload, fields[1..]);
      assert forall i :: 1 <= i < |fields| ==> fields[1..][i - 1] == fields[i];
      assert Truthy(r) ==> exists i :: (0 <= i < |fields| && r == Get(payload, fields[i])
          && forall j :: 0 <= j < i ==> !Truthy(Get(payload, fields[j]))) by {
        if Truthy(r) {
          var k :| 0 <= k < |fields[1..]| && r == Get(payload, fields[1..][k])
            && forall j :: 0 <= j < k ==> !Truthy(Get(payload, fields[1..][j]));
          assert r == Get(payload, fields[k + 1]);
          forall j | 0 <= j < k + 1 ensures !Truthy(Get(payload, fields[j])) {
            if j > 0 {
              assert fields[j] == fields[1..][j - 1];
            }
          }
        }
      }
      r
  }

  // ---- fetching statements from the LRS ----

  /** Whom the statements are asked for: the account name a JWT carries, or
      the signed-in user's e-mail address. */
  datatype Identity = Account(name: Json) | Mailbox(email: string)

  /** The xAPI agent of `get_lrs_statements`: an account on the configured
      home page in JWT mode, a `mailto:` mailbox otherwise. */
  function Agent(homePage: string, who: Identity): Json {
    match who
    case Account(name) => JObj([Field("account", JObj([Field("homePage", JStr(homePage)), Field("name", name)]))])
    case Mailbox(email) => JObj([Field("mbox", JStr("mailto:" + email))])
  }

  /** Different learners are asked for with different agents, so one
      learner's query never returns another's statements. */
  lemma AgentInjective(homePage: string, a: Identity, b: Identity)
    requires Agent(homePage, a) == Agent(homePage, b)
    ensures a == b
  {
    if a.Mailbox? && b.Mailbox? {
      var x, y := "mailto:" + a.email, "mailto:" + b.email;
      assert x[7..] == a.email && y[7..] == b.email;
    }
  }

  const StatementsLimit: string := "300"

  /** One GET of `<endpoint>/statements`: the agent (sent as its JSON text),
      the verb and the page limit. */
  datatype StatementsQuery = StatementsQuery(url: string, agent: Json, verb: string, limit: string)

  function Query(endpoint: string, agent: Json, verb: string): StatementsQuery {
    StatementsQuery(endpoint + "/statements", agent, verb, StatementsLimit)
  }

  /** `resp.json().get("statements", [])`, as `extend` walks it. `reply` is
      what `resp.json()` gave: an exception of the HTTP library, a body that is
      not JSON, or the decoded body, which must be a dict. */
  function ReplyStatements(reply: Result<Json>): (r: Result<seq<Json>>)
    ensures reply.Err? ==> r == Err(reply.error)
    ensures reply.Ok? && !reply.value.JObj? ==> r == Err(Uncaught)
    ensures reply.Ok? && reply.value.JObj? && !HasKey(reply.value.fields, "statements") ==> r == Ok([])
  {
    var body :- reply;
    var statements :- Lookup(body, "statements", JList([]));
    Iterated(statements)
  }

  /** What one verb's query contributes. */
  function VerbStatements(reply: StatementsQuery -> Result<Json>, endpoint: string, agent: Json, verb: string): Result<seq<Json>> {
    ReplyStatements(reply(Query(endpoint, agent, verb)))
  }

  /** The statements of every verb, in verb order; the first reply that
      fails aborts the whole fetch. */
  function Gathered(reply: StatementsQuery -> Result<Json>, endpoint: string, agent: Json, verbs: seq<string>): (r: Result<seq<Json>>)
    decreases |verbs|
  {
    if verbs == [] then Ok([])
    else
      var before :- Gathered(reply, endpoint, agent, verbs[..|verbs| - 1]);
      var last :- VerbStatements(reply, endpoint, agent, verbs[|verbs| - 1]);
      Ok(before + last)
  }

  /** The fetch succeeds exactly when every verb's reply can be read. */
  lemma {:induction false} GatheredSucceeds(reply: StatementsQuery -> Result<Json>, endpoint: string, agent: Json, verbs: seq<string>)
    ensures Gathered(reply, endpoint, agent, verbs).Ok?
      <==> forall i :: 0 <= i < |verbs| ==> VerbStatements(reply, endpoint, agent, verbs[i]).Ok?
    decreases |verbs|
  {
    if verbs != [] {
      var n := |verbs| - 1;
      var init := verbs[..n];
      GatheredSucceeds(reply, endpoint, agent, init);
      assert forall i :: 0 <= i < n ==> init[i] == verbs[i];
    }
  }

  /** A successful fetch holds exactly the statements of the verbs' replies. */
  lemma {:induction false} GatheredMembers(reply: StatementsQuery -> Result<Json>, endpoint: string, agent: Json, verbs: seq<string>, s: Json)
    requires Gathered(reply, endpoint, agent, verbs).Ok?
    ensures s in Gathered(reply, endpoint, agent, verbs).value
      <==> exists i :: 0 <= i < |verbs| && VerbStatements(reply, endpoint, agent, verbs[i]).Ok?
             && s in VerbStatements(reply, endpoint, agent, verbs[i]).value
    decreases |verbs|
  {
    if verbs != [] {
      var n := |verbs| - 1;
      var init := verbs[..n];
      GatheredMembers(reply, endpoint, agent, init, s);
      var last := VerbStatements(reply, endpoint, agent, verbs[n]);
      if s in last.value {
        assert VerbStatements(reply, endpoint, agent, verbs[n]).Ok?;
      } else if s in Gathered(reply, endpoint, agent, init).value {
        var i :| 0 <= i < n && VerbStatements(reply, endpoint, agent, init[i]).Ok?
          && s in VerbStatements(reply, endpoint, agent, init[i]).value;
        assert init[i] == verbs[i];
      } else {
        forall i | 0 <= i < |verbs| && VerbStatements(reply, endpoint, agent, verbs[i]).Ok?
          ensures s !in VerbStatements(reply, endpoint, agent, verbs[i]).value
        {
          if i < n {
            assert init[i] == verbs[i];
          }
        }
      }
    }
  }

  /** A failed prefix decides the fetch: the later verbs are never asked for. */
  lemma {:induction false} GatheredPrefixFails(reply: StatementsQuery -> Result<Json>, endpoint: string, agent: Json, verbs: seq<string>, k: nat)
    requires k <= |verbs| && Gathered(reply, endpoint, agent, verbs[..k]).Err?
    ensures Gathered(reply, endpoint, agent, verbs) == Gathered(reply, endpoint, agent, verbs[..k])
    decreases |verbs| - k
  {
    if k < |verbs| {
      assert verbs[..k + 1][..k] == verbs[..k];
      GatheredPrefixFails(reply, endpoint, agent, verbs, k + 1);
    } else {
      assert verbs[..k] == verbs;
    }
  }

  /** The first verb's failure is the fetch's failure. */
  lemma FirstVerbFails(reply: StatementsQuery -> Result<Json>, endpoint: string, agent: Json, verbs: seq<string>)
    requires verbs != [] && reply(Query(endpoint, agent, verbs[0])).Err?
    ensures Gathered(reply, endpoint, agent, verbs) == Err(reply(Query(endpoint, agent, verbs[0])).error)
  {
    assert verbs[..1][..0] == [];
    GatheredPrefixFails(reply, endpoint, agent, verbs, 1);
  }

  /** One more verb: its statements are appended, or its failure is the fetch's. */
  lemma GatheredStep(reply: StatementsQuery -> Result<Json>, endpoint: string, agent: Json, verbs: seq<string>,
                     i: nat, all: seq<Json>, statements: Result<seq<Json>>)
    requires i < |verbs| && Gathered(reply, endpoint, agent, verbs[..i]) == Ok(all)
    requires statements == VerbStatements(reply, endpoint, agent, verbs[i])
    ensures statements.Ok? ==> Gathered(reply, endpoint, agent, verbs[..i + 1]) == Ok(all + statements.value)
    ensures statements.Err? ==> Gathered(reply, endpoint, agent, verbs) == Err(statements.error)
  {
    assert verbs[..i + 1][..i] == verbs[..i];
    if statements.Err? {
      GatheredPrefixFails(reply, endpoint, agent, verbs, i + 1);
    }
  }

  /** What `get_lrs_statements` returns: the gathered statements, narrowed to
      the platform when one is configured. */
  function Fetched(reply: StatementsQuery -> Result<Json>, endpoint: string, agent: Json, verbs: seq<string>, platform: string): Result<seq<Json>> {
    var all :- Gathered(reply, endpoint, agent, verbs);
    if platform == "" then Ok(all) else PlatformFiltered(all, platform)
  }

  /** `get_lrs_statements`: one query per verb, each reply's statements
      appended in turn, then the platform filter. `reply` answers each query
      as `resp.json()` would. */
  method GetLrsStatements(reply: StatementsQuery -> Result<Json>, endpoint: string, agent: Json, verbs: seq<string>, platform: string)
    returns (r: Result<seq<Json>>)
    ensures r == Fetched(reply, endpoint, agent, verbs, platform)
  {
    var all: seq<Json> := [];
    var i := 0;
    while i < |verbs|
      invariant 0 <= i <= |verbs|
      invariant Gathered(reply, endpoint, agent, verbs[..i]) == Ok(all)
    {
      var statements := VerbStatements(reply, endpoint, agent, verbs[i]);
      GatheredStep(reply, endpoint, agent, verbs, i, all, statements);
      if statements.Err? {
        return Err(statements.error);
      }
      all := all + statements.value;
      i := i + 1;
    }
    assert verbs[..i] == verbs;
    r := FilterByPlatform(all, platform);
  }

  // ---- properties of the course lists ----

  /** No two records share a course id. */
  predicate DistinctIds(courses: seq<CourseRecord>) {
    forall k, l :: 0 <= k < l < |courses| ==> Key(courses[k].courseId) != Key(courses[l].courseId)
  }

  /** Filtering by exclusion leaves exactly the ids that were not excluded. */
  lemma NotExcludedKeys(courses: seq<CourseRecord>, excluded: set<Json>)
    ensures IdKeys(NotExcluded(courses, excluded)) == IdKeys(courses) - excluded
  {
    forall id | id in IdKeys(courses) - excluded ensures id in IdKeys(NotExcluded(courses, excluded)) {
      var c :| c in courses && Key(c.courseId) == id;
      NotExcludedMembers(courses, excluded, c);
    }
    forall id | id in IdKeys(NotExcluded(courses, excluded)) ensures id in IdKeys(courses) - excluded {
      var c :| c in NotExcluded(courses, excluded) && Key(c.courseId) == id;
      NotExcludedMembers(courses, excluded, c);
    }
  }

  /** Filtering a list of distinct ids keeps them distinct. */
  lemma {:induction false} NotExcludedDistinct(courses: seq<CourseRecord>, excluded: set<Json>)
    requires DistinctIds(courses)
    ensures DistinctIds(NotExcluded(courses, excluded))
    decreases |courses|
  {
    if courses != [] {
      var n := |courses| - 1;
      var last := courses[n];
      var init := courses[..n];
      assert DistinctIds(init);
      NotExcludedDistinct(init, excluded);
      var kept := NotExcluded(init, excluded);
      if Key(last.courseId) !in excluded {
        forall k | 0 <= k < |kept| ensures Key(kept[k].courseId) != Key(last.courseId) {
          NotExcludedMembers(init, excluded, kept[k]);
          var j :| 0 <= j < n && init[j] == kept[k];
          assert courses[j] == kept[k];
        }
      } else {
        assert kept + [] == kept;
      }
    }
  }

  /** `c` is the first record of its course id in `all`. */
  ghost predicate FirstOf(all: seq<CourseRecord>, c: CourseRecord) {
    exists j :: 0 <= j < |all| && all[j] == c && forall i :: 0 <= i < j ==> Key(all[i].courseId) != Key(c.courseId)
  }

  /** `out` is `all` with duplicate ids removed: one record per id, each the
      first of its id. */
  ghost predicate Deduplicated(out: seq<CourseRecord>, all: seq<CourseRecord>) {
    DistinctIds(out) && IdKeys(out) == IdKeys(all) && forall c :: c in out ==> FirstOf(all, c)
  }

  /** What `RemoveDuplicates` promises, read as `Deduplicated`. */
  lemma RemovalKeepsFirsts(courses: seq<CourseRecord>, out: seq<CourseRecord>, picks: seq<nat>)
    requires forall i :: 0 <= i < |courses| ==> Hashable(courses[i].courseId)
    requires |picks| == |out|
    requires forall k :: 0 <= k < |picks| ==> picks[k] < |courses| && out[k] == courses[picks[k]]
    requires forall k, j :: 0 <= k < |picks| && 0 <= j < picks[k] ==>
      Key(courses[j].courseId) != Key(courses[picks[k]].courseId)
    requires DistinctIds(out) && IdKeys(out) == IdKeys(courses)
    ensures Deduplicated(out, courses)
    ensures forall c :: c in out ==> Hashable(c.courseId)
  {
    forall c | c in out ensures FirstOf(courses, c) && Hashable(c.courseId) {
      var k :| 0 <= k < |out| && out[k] == c;
      assert courses[picks[k]] == c;
    }
  }
}
