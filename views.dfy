/** The API views' own logic: the owner field stripped from a request before
    the serializer sees it, the permission check on the parent before a child
    row is created, and the course progress view. The goal and link deletions
    of these views are in `PlanSync`. */
module Views {
  import opened Outcomes
  import opened JsonValues
  import Configurations
  import Permissions
  import Xapi

  // ---- owner fields ----

  /** `d.pop(k)`: the entry under `k` goes, the rest keep their order. */
  function Pop(d: Dict, k: string): Dict
    decreases |d|
  {
    if d == [] then []
    else if d[0].key == k then Pop(d[1..], k)
    else [d[0]] + Pop(d[1..], k)
  }

  /** After the pop `k` is gone, and every other key keeps its value. */
  lemma {:induction false} PopMeaning(d: Dict, k: string, other: string)
    ensures !HasKey(Pop(d, k), k)
    ensures other != k ==> HasKey(Pop(d, k), other) == HasKey(d, other)
    ensures other != k ==> Get(Pop(d, k), other) == Get(d, other)
    decreases |d|
  {
    if d != [] {
      PopMeaning(d[1..], k, other);
      HasKeyTail(d, other);
      if d[0].key != k {
        var r := Pop(d, k);
        assert r[1..] == Pop(d[1..], k);
        HasKeyTail(r, other);
        HasKeyTail(r, k);
      }
    }
  }

  /** Popping a key the dict lacks changes nothing. */
  lemma {:induction false} PopAbsent(d: Dict, k: string)
    requires !HasKey(d, k)
    ensures Pop(d, k) == d
    decreases |d|
  {
    if d != [] {
      HasKeyTail(d, k);
      PopAbsent(d[1..], k);
    }
  }

  /** In a dict with distinct keys the pop removes exactly one entry when the
      key is there. */
  lemma {:induction false} PopCount(d: Dict, k: string)
    requires UniqueKeys(d)
    ensures |Pop(d, k)| == |d| - (if HasKey(d, k) then 1 else 0)
    decreases |d|
  {
    if d != [] {
      HasKeyTail(d, k);
      if d[0].key == k {
        forall i | 0 <= i < |d[1..]| ensures d[1..][i].key != k {
          assert d[1..][i] == d[i + 1];
        }
        PopAbsent(d[1..], k);
      } else {
        assert UniqueKeys(d[1..]) by {
          forall i, j | 0 <= i < j < |d[1..]| ensures d[1..][i].key != d[1..][j].key {
            assert d[1..][i] == d[i + 1] && d[1..][j] == d[j + 1];
          }
        }
        PopCount(d[1..], k);
      }
    }
  }

  /** The viewsets whose rows belong to the requesting user. */
  datatype OwnedViewSet = ProfileResponses | CandidateLists | TrainingPlans

  /** The field each of them fills with the requesting user. */
  function OwnerField(v: OwnedViewSet): string {
    match v
    case ProfileResponses => "submitted_by"
    case CandidateLists => "ranker"
    case TrainingPlans => "planner"
  }

  /** The parsed body of a request, which `initial` edits in place. `form`
      says the body was parsed into a `QueryDict` (a form or multipart
      body), the only kind with the `_mutable` switch; a JSON body is parsed
      into a plain dict. */
  class RequestData {
    var data: Dict
    const form: bool

    constructor (body: Dict, form: bool)
      ensures data == body && this.form == form
    {
      data := body;
      this.form := form;
    }

    /** `initial`: a client-supplied owner is popped, so that the serializer
        falls back to the requesting user; everything else stays as sent.
        Setting `_mutable` on a plain dict raises, so a JSON body carrying
        the owner field aborts the request and keeps the field. */
    method StripOwner(v: OwnedViewSet) returns (r: Option<Exc>)
      modifies this
      ensures r.Some? <==> !form && HasKey(old(data), OwnerField(v))
      ensures r.Some? ==> r.value == Uncaught && data == old(data)
      ensures r.None? ==> !HasKey(data, OwnerField(v))
      ensures forall k :: k != OwnerField(v) ==> HasKey(data, k) == HasKey(old(data), k)
      ensures forall k :: k != OwnerField(v) ==> Get(data, k) == Get(old(data), k)
      ensures !HasKey(old(data), OwnerField(v)) ==> data == old(data)
      ensures r.None? && UniqueKeys(old(data)) ==>
        |data| == |old(data)| - (if HasKey(old(data), OwnerField(v)) then 1 else 0)
    {
      var field := OwnerField(v);
      r := None;
      if HasKey(data, field) {
        if !form {
          return Some(Uncaught);
        }
        data := Pop(data, field);
        forall k | k != field
          ensures HasKey(data, k) == HasKey(old(data), k) && Get(data, k) == Get(old(data), k)
        {
          PopMeaning(old(data), field, k);
        }
        PopMeaning(old(data), field, field);
        if UniqueKeys(old(data)) {
          PopCount(old(data), field);
        }
      }
    }
  }

  // ---- creating a child row ----

  /** The viewsets whose `create` first checks the parent row. */
  datatype ChildViewSet =
    | CandidateRankings
    | GoalCourses
    | GoalKsas
    | PlanGoals
    | PlanCompetencies
    | ApplicationCourses
    | ApplicationExperiences

  /** The payload field naming the parent. */
  function ParentField(v: ChildViewSet): string {
    match v
    case CandidateRankings => "candidate_list"
    case GoalCourses => "plan_goal"
    case GoalKsas => "plan_goal"
    case PlanGoals => "plan_competency"
    case PlanCompetencies => "learning_plan"
    case ApplicationCourses => "application"
    case ApplicationExperiences => "application"
  }

  /** The parent's model name. */
  function ParentModel(v: ChildViewSet): string {
    match v
    case CandidateRankings => "candidatelist"
    case GoalCourses => "learningplangoal"
    case GoalKsas => "learningplangoal"
    case PlanGoals => "learningplancompetency"
    case PlanCompetencies => "learningplan"
    case ApplicationCourses => "application"
    case ApplicationExperiences => "application"
  }

  /** The permission each `create` asks for on the parent:
      "api.change_<parent model>". */
  function ParentPermission(v: ChildViewSet): string {
    "api.change_" + ParentModel(v)
  }

  /** Adding a child needs the permission an edit of the parent needs: the
      one the object permission table asks of a PUT or PATCH on it. */
  lemma ChildNeedsParentEdit(v: ChildViewSet)
    ensures Permissions.RequiredPermissions("PUT", "api", ParentModel(v)) == Some([ParentPermission(v)])
    ensures Permissions.RequiredPermissions("PATCH", "api", ParentModel(v)) == Some([ParentPermission(v)])
  {
    Permissions.PermissionPerMethod("api", ParentModel(v));
    assert "api" + ".change_" == "api.change_";
  }

  const ForbiddenDetail: string := "You do not have permission to perform this action"

  /** The outcome of the check: a 403 response, or on to the serializer. */
  datatype Gate = Forbidden | Proceed

  /** The check before `create`. `parents` holds the payload values that
      name an existing parent row; any other value, a missing one included,
      makes the lookup raise `DoesNotExist`, which nothing catches.
      `mayChange` answers `user.has_perm(permission, parent)`. */
  function CreateGate(v: ChildViewSet, data: Dict, parents: set<Json>, mayChange: (string, Json) -> bool): (r: Result<Gate>)
    ensures r.Err? <==> Get(data, ParentField(v)) !in parents
    ensures r.Err? ==> r.error == Uncaught
    ensures r == Ok(Proceed) <==> Get(data, ParentField(v)) in parents && mayChange(ParentPermission(v), Get(data, ParentField(v)))
    ensures !HasKey(data, ParentField(v)) && JNull !in parents ==> r.Err?
  {
    var pk := Get(data, ParentField(v));
    if pk !in parents then Err(Uncaught)
    else if mayChange(ParentPermission(v), pk) then Ok(Proceed)
    else Ok(Forbidden)
  }

  // ---- course progress ----

  const NoConfiguration: string := "No configuration found."
  const NoCredentials: string := "LRS credentials not configured."
  const NoJwtField: string := "No valid JWT field found."
  const NoIdentifier: string := "Could not get xAPI user identifier information."
  const LrsUnreachable: string := "Could not connect to LRS"
  const ProgressFailed: string := "An error occurred while fetching user course progress"

  /** The response: a status with a message, or the three course lists (200). */
  datatype ProgressReply =
    | Message(status: int, message: string)
    | Courses(completed: seq<Xapi.CourseRecord>, enrolled: seq<Xapi.CourseRecord>, inProgress: seq<Xapi.CourseRecord>)

  /** The xAPI settings: JWT mode, the account home page, and the JWT fields
      tried for the account name, in order. */
  datatype XapiSettings = XapiSettings(useJwt: bool, homePage: string, jwtFields: seq<string>)

  /** What the view knows of the caller: the decoded JWT payload, whether a
      user is signed in, and that user's e-mail. */
  datatype Caller = Caller(payload: Dict, authenticated: bool, email: string)

  /** The endpoint, username and password are all set. */
  predicate Credentialed(s: Configurations.Settings) {
    s.lrsEndpoint != "" && s.lrsUsername != "" && s.lrsPassword != ""
  }

  /** Whom the statements are asked for; `None` when no one can be named. */
  function Identify(x: XapiSettings, caller: Caller): (r: Option<Xapi.Identity>)
    ensures x.useJwt ==> (r.Some? <==> exists i :: 0 <= i < |x.jwtFields| && Truthy(Get(caller.payload, x.jwtFields[i])))
    ensures x.useJwt && r.Some? ==> r.value.Account? && Truthy(r.value.name)
    ensures !x.useJwt ==> (r.Some? <==> caller.authenticated)
    ensures !x.useJwt && r.Some? ==> r.value == Xapi.Mailbox(caller.email)
  {
    if x.useJwt then
      var name := Xapi.JwtAccountName(caller.payload, x.jwtFields);
      if name == JNull then None else Some(Xapi.Account(name))
    else if caller.authenticated then Some(Xapi.Mailbox(caller.email))
    else None
  }

  /** The `except` clauses as written: only Python's built-in
      `ConnectionError` gives 502; the HTTP library's own exceptions, a
      refused connection among them, are not of that class and give 500. */
  function CaughtStatusAsWritten(e: Exc): (status: int)
    ensures status == 502 <==> e == ConnectionError
    ensures status == 500 <==> e != ConnectionError
  {
    if e == ConnectionError then 502 else 500
  }

  /** The mapping the 502 clause is there for: failing to reach the LRS, by
      either kind of connection error, gives 502; anything else 500. */
  function CaughtStatus(e: Exc): (status: int)
    ensures status == 502 <==> e == ConnectionError || e == RequestError
    ensures status == 500 <==> !(e == ConnectionError || e == RequestError)
  {
    if e == ConnectionError || e == RequestError then 502 else 500
  }

  /** The two mappings differ only on the HTTP library's exceptions. */
  lemma CaughtStatusAgrees(e: Exc)
    requires e != RequestError
    ensures CaughtStatus(e) == CaughtStatusAsWritten(e)
  {
  }

  /** The response for an exception raised inside the `try`, by the
      `except` clauses as written. */
  function Caught(e: Exc): ProgressReply {
    var status := CaughtStatusAsWritten(e);
    Message(status, if status == 502 then LrsUnreachable else ProgressFailed)
  }

  /** `get_lrs_statements` for one group of verbs. */
  function Statements(reply: Xapi.StatementsQuery -> Result<Json>, s: Configurations.Settings, agent: Json, p: Xapi.Progress): Result<seq<Json>> {
    Xapi.Fetched(reply, s.lrsEndpoint, agent, Xapi.ProgressVerbs(p), s.lrsPlatform)
  }

  /** An LRS that refuses the first connection: the fetch raises the HTTP
      library's error, which the view as written answers with 500, not 502. */
  lemma RefusedLrsGives500(reply: Xapi.StatementsQuery -> Result<Json>, s: Configurations.Settings, agent: Json)
    requires reply(Xapi.Query(s.lrsEndpoint, agent, Xapi.ProgressVerbs(Xapi.Completed)[0])) == Err(RequestError)
    ensures Statements(reply, s, agent, Xapi.Completed) == Err(RequestError)
    ensures CaughtStatusAsWritten(Statements(reply, s, agent, Xapi.Completed).error) == 500
    ensures CaughtStatus(Statements(reply, s, agent, Xapi.Completed).error) == 502
    ensures Caught(Statements(reply, s, agent, Xapi.Completed).error) == Message(500, ProgressFailed)
  {
    Xapi.FirstVerbFails(reply, s.lrsEndpoint, agent, Xapi.ProgressVerbs(Xapi.Completed));
  }

  /** One value per statement group, in the order the view handles them. */
  datatype Groups<T> = Groups(completed: T, enrolled: T, inProgress: T)

  /** The three fetches, in order; the first failure aborts. */
  function FetchedAll(reply: Xapi.StatementsQuery -> Result<Json>, s: Configurations.Settings, agent: Json): Result<Groups<seq<Json>>> {
    var c :- Statements(reply, s, agent, Xapi.Completed);
    var e :- Statements(reply, s, agent, Xapi.Enrolled);
    var i :- Statements(reply, s, agent, Xapi.InProgress);
    Ok(Groups(c, e, i))
  }

  /** The three conversions into course records, in order. */
  function ProcessedAll(st: Groups<seq<Json>>): Result<Groups<seq<Xapi.CourseRecord>>> {
    var c :- Xapi.AllCourses(st.completed, Xapi.Completed);
    var e :- Xapi.AllCourses(st.enrolled, Xapi.Enrolled);
    var i :- Xapi.AllCourses(st.inProgress, Xapi.InProgress);
    Ok(Groups(c, e, i))
  }

  predicate AllHashable(courses: seq<Xapi.CourseRecord>) {
    forall c :: c in courses ==> Xapi.Hashable(c.courseId)
  }

  /** Every course id can be put in a set, so no de-duplication raises. */
  predicate Hashables(cs: Groups<seq<Xapi.CourseRecord>>) {
    AllHashable(cs.completed) && AllHashable(cs.enrolled) && AllHashable(cs.inProgress)
  }

  /** The exception the `try` block raises first, in its order: the three
      fetches, the three conversions, then the three de-duplications. */
  function FirstError(reply: Xapi.StatementsQuery -> Result<Json>, s: Configurations.Settings, agent: Json): Option<Exc> {
    match FetchedAll(reply, s, agent)
    case Err(e) => Some(e)
    case Ok(st) =>
      match ProcessedAll(st)
      case Err(e) => Some(e)
      case Ok(cs) => if Hashables(cs) then None else Some(Uncaught)
  }

  /** The 200 response: completed and enrolled de-duplicated, and the
      in-progress courses de-duplicated with every completed course id
      taken out. */
  ghost predicate Reported(r: ProgressReply, cs: Groups<seq<Xapi.CourseRecord>>) {
    && r.Courses?
    && Xapi.Deduplicated(r.completed, cs.completed)
    && Xapi.Deduplicated(r.enrolled, cs.enrolled)
    && Xapi.DistinctIds(r.inProgress)
    && Xapi.IdKeys(r.inProgress) == Xapi.IdKeys(cs.inProgress) - Xapi.IdKeys(cs.completed)
    && forall c :: c in r.inProgress ==> Xapi.FirstOf(cs.inProgress, c) && Xapi.Key(c.courseId) !in Xapi.IdKeys(cs.completed)
  }

  /** The response once the statements are asked for. */
  ghost predicate Answered(r: ProgressReply, reply: Xapi.StatementsQuery -> Result<Json>, s: Configurations.Settings, agent: Json) {
    match FirstError(reply, s, agent)
    case Some(e) => r == Caught(e)
    case None => Reported(r, ProcessedAll(FetchedAll(reply, s, agent).value).value)
  }

  /** The three `get_lrs_statements` calls. */
  method FetchGroups(reply: Xapi.StatementsQuery -> Result<Json>, s: Configurations.Settings, agent: Json)
    returns (r: Result<Groups<seq<Json>>>)
    ensures r == FetchedAll(reply, s, agent)
  {
    var c := Xapi.GetLrsStatements(reply, s.lrsEndpoint, agent, Xapi.ProgressVerbs(Xapi.Completed), s.lrsPlatform);
    if c.Err? {
      return Err(c.error);
    }
    var e := Xapi.GetLrsStatements(reply, s.lrsEndpoint, agent, Xapi.ProgressVerbs(Xapi.Enrolled), s.lrsPlatform);
    if e.Err? {
      return Err(e.error);
    }
    var i := Xapi.GetLrsStatements(reply, s.lrsEndpoint, agent, Xapi.ProgressVerbs(Xapi.InProgress), s.lrsPlatform);
    if i.Err? {
      return Err(i.error);
    }
    r := Ok(Groups(c.value, e.value, i.value));
  }

  /** The three `process_course_statements` calls. */
  method ProcessGroups(st: Groups<seq<Json>>) returns (r: Result<Groups<seq<Xapi.CourseRecord>>>)
    ensures r == ProcessedAll(st)
  {
    var c := Xapi.ProcessCourseStatements(st.completed, Xapi.Completed);
    if c.Err? {
      return Err(c.error);
    }
    var e := Xapi.ProcessCourseStatements(st.enrolled, Xapi.Enrolled);
    if e.Err? {
      return Err(e.error);
    }
    var i := Xapi.ProcessCourseStatements(st.inProgress, Xapi.InProgress);
    if i.Err? {
      return Err(i.error);
    }
    r := Ok(Groups(c.value, e.value, i.value));
  }

  /** The three `remove_duplicates` calls and the exclusion of completed
      courses from the in-progress ones. */
  method ReportGroups(cs: Groups<seq<Xapi.CourseRecord>>) returns (r: ProgressReply)
    ensures Hashables(cs) ==> Reported(r, cs)
    ensures !Hashables(cs) ==> r == Caught(Uncaught)
  {
    var completed, completedPicks := Xapi.RemoveDuplicates(cs.completed);
    if completed.Err? {
      return Caught(completed.error);
    }
    var enrolled, enrolledPicks := Xapi.RemoveDuplicates(cs.enrolled);
    if enrolled.Err? {
      return Caught(enrolled.error);
    }
    var inProgress, inProgressPicks := Xapi.RemoveDuplicates(cs.inProgress);
    if inProgress.Err? {
      return Caught(inProgress.error);
    }
    Xapi.RemovalKeepsFirsts(cs.completed, completed.value, completedPicks);
    Xapi.RemovalKeepsFirsts(cs.enrolled, enrolled.value, enrolledPicks);
    Xapi.RemovalKeepsFirsts(cs.inProgress, inProgress.value, inProgressPicks);
    var kept := Xapi.FilterByExclusion(inProgress.value, completed.value);
    var excluded := Xapi.IdKeys(completed.value);
    Xapi.NotExcludedKeys(inProgress.value, excluded);
    Xapi.NotExcludedDistinct(inProgress.value, excluded);
    forall c | c in kept.value
      ensures Xapi.FirstOf(cs.inProgress, c) && Xapi.Key(c.courseId) !in excluded
    {
      Xapi.NotExcludedMembers(inProgress.value, excluded, c);
    }
    r := Courses(completed.value, enrolled.value, kept.value);
  }

  /** `GetCourseProgressView.get`. `config` is the first `Configuration` row,
      if any; `reply` answers each statements query as `resp.json()` would. */
  method CourseProgress(config: Option<Configurations.Settings>, x: XapiSettings, caller: Caller, reply: Xapi.StatementsQuery -> Result<Json>)
    returns (r: ProgressReply)
    ensures config.None? ==> r == Message(500, NoConfiguration)
    ensures config.Some? && !Credentialed(config.value) ==> r == Message(500, NoCredentials)
    ensures config.Some? && Credentialed(config.value) && Identify(x, caller).None? ==>
      r == Message(400, if x.useJwt then NoJwtField else NoIdentifier)
    ensures config.Some? && Credentialed(config.value) && Identify(x, caller).Some? ==>
      Answered(r, reply, config.value, Xapi.Agent(x.homePage, Identify(x, caller).value))
  {
    if config.None? {
      return Message(500, NoConfiguration);
    }
    var s := config.value;
    if !(s.lrsEndpoint != "" && s.lrsUsername != "" && s.lrsPassword != "") {
      return Message(500, NoCredentials);
    }
    var who := Identify(x, caller);
    if who.None? {
      return Message(400, if x.useJwt then NoJwtField else NoIdentifier);
    }
    var agent := Xapi.Agent(x.homePage, who.value);
    var statements := FetchGroups(reply, s, agent);
    if statements.Err? {
      return Caught(statements.error);
    }
    var courses := ProcessGroups(statements.value);
    if courses.Err? {
      return Caught(courses.error);
    }
    r := ReportGroups(courses.value);
  }
}
