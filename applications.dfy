/** Applications and their experiences and courses: the serializer checks on
    status, dates, parent ids and the code of ethics, the final-submission
    stamp, and the permissions granted on an application. */
module Applications {
  import opened Outcomes
  import opened JsonValues
  import opened Calendar
  import opened Remote
  import opened Catalog
  import opened Elrr
  import Homoglyphs
  import ApiModels
  import LearningPlans
  import PlanSync

  /** `Application.StatusChoices`; statuses the serializers never name are
      `OtherStatus`. */
  datatype Status = Draft | AdditionalInfoNeeded | Submitted | OtherStatus(name: string)

  /** `EDITABLE_STATUSES` */
  predicate Editable(s: Status) {
    s == Draft || s == AdditionalInfoNeeded
  }

  const HomoglyphError: string := "Data contains homoglyphs and can be dangerous. Check logs for more details"
  const RequiredError: string := "This field is required."
  const ExperienceStatusError: string := "Cannot add/update experiences to a non editable application"
  const CourseStatusError: string := "Cannot add/update courses to a non editable application"
  const DateOrderError: string := "Start date must be before end date"
  const CannotEditError: string := "Cannot edit application"
  const EthicsError: string := "Code of ethics acknowledgement is required"

  datatype Application = Application(applicant: nat, status: Status, stamp: Option<DateTime>,
                                     finalSubmission: bool, codeOfEthics: bool, fields: Dict)
  datatype Experience = Experience(application: nat, start: Option<Date>, end: Option<Date>, fields: Dict)
  datatype AppCourse = AppCourse(application: nat, course: Option<string>, fields: Dict)

  /** The two kinds of rows that hang off an application. */
  datatype ChildKind = ExperienceChild | CourseChild

  function StatusError(kind: ChildKind): string {
    if kind == ExperienceChild then ExperienceStatusError else CourseStatusError
  }

  // The status guard of `validate_application`

  /** `validate_application` as written. DRF runs a field validator only for a
      field the payload carries, so a partial update that leaves out
      `application` is never checked. */
  function GuardAsWritten(kind: ChildKind, given: Option<nat>, apps: map<nat, Application>): (e: Option<Exc>)
    ensures given.None? ==> e.None?
    ensures e.None? && given.Some? ==> given.value in apps && Editable(apps[given.value].status)
  {
    if given.None? then None
    else if given.value !in apps then Some(ValidationError(ApiModels.InvalidPk(given.value)))
    else if !Editable(apps[given.value].status) then Some(ValidationError(StatusError(kind)))
    else None
  }

  /** The application a write touches: the one named in the payload, else the
      one the stored row belongs to. */
  function Target(given: Option<nat>, stored: Option<nat>): Option<nat> {
    if given.Some? then given else stored
  }

  /** The guard the docstring describes: adding to or updating a row of an
      application that is not editable is refused, whether or not the payload
      names the application. */
  function Guard(kind: ChildKind, given: Option<nat>, stored: Option<nat>, apps: map<nat, Application>): (e: Option<Exc>)
    ensures e.None? && Target(given, stored).Some? ==>
      Target(given, stored).value in apps && Editable(apps[Target(given, stored).value].status)
    ensures e.Some? ==> Target(given, stored).Some?
    ensures e.Some? ==> e.value in {ValidationError(StatusError(kind)), ValidationError(ApiModels.InvalidPk(Target(given, stored).value))}
  {
    GuardAsWritten(kind, Target(given, stored), apps)
  }

  /** A partial update of an experience of a submitted application passes the
      guard as written, and is refused by the intended one. */
  lemma PartialUpdateSkipsGuard()
    ensures var apps := map[1 := Application(7, Submitted, None, true, true, [])];
      GuardAsWritten(ExperienceChild, None, apps).None?
      && Guard(ExperienceChild, None, Some(1), apps) == Some(ValidationError(ExperienceStatusError))
  {
  }

  /** With the payload naming the application, both guards agree. */
  lemma GuardAgreesWhenNamed(kind: ChildKind, given: nat, stored: Option<nat>, apps: map<nat, Application>)
    ensures Guard(kind, Some(given), stored, apps) == GuardAsWritten(kind, Some(given), apps)
  {
  }

  // Experience dates

  /** `d1 > d2` on dates. */
  predicate After(a: Date, b: Date) {
    a.year > b.year || (a.year == b.year && (a.month > b.month || (a.month == b.month && a.day > b.day)))
  }

  predicate Ordered(start: Option<Date>, end: Option<Date>) {
    !(start.Some? && end.Some? && After(start.value, end.value))
  }

  /** The value `validate` compares: `attrs.get(k)`, falling back to the
      stored value when that is None and there is an instance. A payload
      field is `None` when absent and `Some(None)` when null. */
  function Checked(given: Option<Option<Date>>, stored: Option<Option<Date>>): Option<Date> {
    if given.Some? && given.value.Some? then given.value
    else if stored.Some? then stored.value
    else None
  }

  /** The value the `setattr` loop leaves in the column. */
  function Written(given: Option<Option<Date>>, stored: Option<Date>): Option<Date> {
    if given.Some? then given.value else stored
  }

  /** What `validate` compares is ordered only if what the update writes is:
      the check falls back to the stored date exactly where the write keeps
      it, and a null the check looks past is written as no date. */
  lemma {:induction false} CheckedOrderKeepsRowOrdered(start: Option<Option<Date>>, end: Option<Option<Date>>, e: Experience)
    requires Ordered(Checked(start, Some(e.start)), Checked(end, Some(e.end)))
    ensures Ordered(Written(start, e.start), Written(end, e.end))
  {
    if start.Some? && start.value.None? {
      assert Written(start, e.start).None?;
    } else if end.Some? && end.value.None? {
      assert Written(end, e.end).None?;
    } else {
      assert Written(start, e.start) == Checked(start, Some(e.start));
      assert Written(end, e.end) == Checked(end, Some(e.end));
    }
  }

  /** The validated fields of an experience; `application`, `start` and `end`
      are `None` when the payload leaves them out. */
  datatype ExperienceData = ExperienceData(application: Option<nat>, start: Option<Option<Date>>,
                                           end: Option<Option<Date>>, fields: Dict)

  /** `ApplicationExperienceSerializer.validate` of `data` against the stored
      row `instance` (None on create): the homoglyph check of the text fields,
      then the date order. */
  function ExperienceChecked(data: ExperienceData, instance: Option<Experience>, dangerous: string -> bool): (r: Result<ExperienceData>)
    ensures r.Ok? ==> r.value == data && Homoglyphs.Safe(data.fields, dangerous)
    ensures r.Ok? && instance.Some? ==> Ordered(Written(data.start, instance.value.start), Written(data.end, instance.value.end))
    ensures r.Ok? && instance.None? ==> Ordered(Written(data.start, None), Written(data.end, None))
    ensures r.Err? ==> r.error in {ValidationError(HomoglyphError), ValidationError(DateOrderError)}
    ensures r.Err? <==>
      (!Homoglyphs.Safe(data.fields, dangerous)
       || !Ordered(Checked(data.start, if instance.Some? then Some(instance.value.start) else None),
                   Checked(data.end, if instance.Some? then Some(instance.value.end) else None)))
  {
    var startCol := if instance.Some? then Some(instance.value.start) else None;
    var endCol := if instance.Some? then Some(instance.value.end) else None;
    if !Homoglyphs.Safe(data.fields, dangerous) then Err(ValidationError(HomoglyphError))
    else if !Ordered(Checked(data.start, startCol), Checked(data.end, endCol)) then Err(ValidationError(DateOrderError))
    else if instance.Some? then
      CheckedOrderKeepsRowOrdered(data.start, data.end, instance.value);
      Ok(data)
    else Ok(data)
  }

  /** The whole validation as DRF runs it: the field validator
      `validate_application`, only for a payload carrying `application`,
      then `validate`. */
  function ExperienceValidated(data: ExperienceData, instance: Option<Experience>, apps: map<nat, Application>,
                               dangerous: string -> bool): (r: Result<ExperienceData>)
    ensures r.Ok? ==> r.value == data && Homoglyphs.Safe(data.fields, dangerous)
    ensures r.Ok? && instance.Some? ==> Ordered(Written(data.start, instance.value.start), Written(data.end, instance.value.end))
    ensures r.Ok? && instance.None? ==> Ordered(Written(data.start, None), Written(data.end, None))
    ensures r.Ok? && data.application.Some? ==> data.application.value in apps && Editable(apps[data.application.value].status)
    ensures r.Ok? <==> GuardAsWritten(ExperienceChild, data.application, apps).None? && ExperienceChecked(data, instance, dangerous).Ok?
    ensures r.Err? && GuardAsWritten(ExperienceChild, data.application, apps).Some? ==>
      r.error == GuardAsWritten(ExperienceChild, data.application, apps).value
  {
    var guard := GuardAsWritten(ExperienceChild, data.application, apps);
    if guard.Some? then Err(guard.value) else ExperienceChecked(data, instance, dangerous)
  }

  /** The validation the docstring of `validate_application` describes: the
      guard also covers the application a stored row belongs to. */
  function ExperienceValidatedIntended(data: ExperienceData, instance: Option<Experience>, apps: map<nat, Application>,
                                       dangerous: string -> bool): (r: Result<ExperienceData>)
    ensures r.Ok? && Target(data.application, if instance.Some? then Some(instance.value.application) else None).Some? ==>
      var a := Target(data.application, if instance.Some? then Some(instance.value.application) else None).value;
      a in apps && Editable(apps[a].status)
    ensures r.Ok? ==> r == ExperienceChecked(data, instance, dangerous)
  {
    var stored := if instance.Some? then Some(instance.value.application) else None;
    var guard := Guard(ExperienceChild, data.application, stored, apps);
    if guard.Some? then Err(guard.value) else ExperienceChecked(data, instance, dangerous)
  }

  /** The two validations differ only on a payload that leaves out
      `application`: there the intended one also refuses a row of a
      non-editable application, which the one as written lets through. */
  lemma ExperienceValidationsAgree(data: ExperienceData, e: Experience, apps: map<nat, Application>,
                                  dangerous: string -> bool)
    ensures data.application.Some? ==>
      ExperienceValidated(data, Some(e), apps, dangerous) == ExperienceValidatedIntended(data, Some(e), apps, dangerous)
    ensures data.application.None? && e.application in apps && !Editable(apps[e.application].status) ==>
      ExperienceValidatedIntended(data, Some(e), apps, dangerous) == Err(ValidationError(ExperienceStatusError))
      && ExperienceValidated(data, Some(e), apps, dangerous) == ExperienceChecked(data, Some(e), dangerous)
  {
    if data.application.Some? {
      GuardAgreesWhenNamed(ExperienceChild, data.application.value, Some(e.application), apps);
    }
  }

  // Code of ethics

  /** The validated fields of an application; the flags are `None` when the
      payload leaves them out. */
  datatype AppChanges = AppChanges(finalSubmission: Option<bool>, codeOfEthics: Option<bool>, fields: Dict)

  /** `ApplicationSerializer.validate` as written: on a final submission the
      acknowledgement is taken from the payload, and when that is falsy,
      absent or false alike, from the instance. */
  function SubmissionCheckAsWritten(ch: AppChanges, instance: Option<Application>, dangerous: string -> bool): (r: Option<Exc>)
    ensures r.None? && ch.finalSubmission == Some(true) ==>
      ch.codeOfEthics == Some(true) || (instance.Some? && instance.value.codeOfEthics)
  {
    if !Homoglyphs.Safe(ch.fields, dangerous) then Some(ValidationError(HomoglyphError))
    else if ch.finalSubmission == Some(true) then
      var ack := ch.codeOfEthics == Some(true) || (instance.Some? && instance.value.codeOfEthics);
      if !ack then Some(ValidationError(EthicsError)) else None
    else None
  }

  /** The intended check: the instance is consulted only when the payload
      says nothing about the acknowledgement. */
  function SubmissionCheck(ch: AppChanges, instance: Option<Application>, dangerous: string -> bool): (r: Option<Exc>)
    ensures r.Some? ==> r.value in {ValidationError(HomoglyphError), ValidationError(EthicsError)}
    ensures r.None? ==> Homoglyphs.Safe(ch.fields, dangerous)
  {
    if !Homoglyphs.Safe(ch.fields, dangerous) then Some(ValidationError(HomoglyphError))
    else if ch.finalSubmission == Some(true) then
      var ack := if ch.codeOfEthics.Some? then ch.codeOfEthics.value else instance.Some? && instance.value.codeOfEthics;
      if !ack then Some(ValidationError(EthicsError)) else None
    else None
  }

  /** The two checks differ only when the payload sets the acknowledgement
      to false on a final submission: the check as written then falls back
      to the instance. */
  lemma SubmissionChecksAgree(ch: AppChanges, instance: Option<Application>, dangerous: string -> bool)
    ensures ch.codeOfEthics != Some(false) ==>
      SubmissionCheck(ch, instance, dangerous) == SubmissionCheckAsWritten(ch, instance, dangerous)
    ensures SubmissionCheck(ch, instance, dangerous).None? ==> SubmissionCheckAsWritten(ch, instance, dangerous).None?
  {
  }

  // The update of an application

  /** `_handle_submission` then the `setattr` loop: a final submission of an
      application without a stamp stamps it and marks it SUBMITTED. */
  function Updated(app: Application, ch: AppChanges, now: DateTime): Application {
    var first := ch.finalSubmission == Some(true) && app.stamp.None?;
    Application(
      app.applicant,
      if first then Submitted else app.status,
      if first then Some(now) else app.stamp,
      if ch.finalSubmission.Some? then ch.finalSubmission.value else app.finalSubmission,
      if ch.codeOfEthics.Some? then ch.codeOfEthics.value else app.codeOfEthics,
      LearningPlans.Overlay(app.fields, ch.fields))
  }

  /** The stamp is set once: an application already stamped keeps its stamp
      and status, and the first final submission stamps it with `now` and
      marks it submitted. */
  lemma StampedOnce(app: Application, ch: AppChanges, now: DateTime)
    ensures app.stamp.Some? ==> Updated(app, ch, now).stamp == app.stamp && Updated(app, ch, now).status == app.status
    ensures app.stamp.None? && ch.finalSubmission == Some(true) ==>
      Updated(app, ch, now).stamp == Some(now) && Updated(app, ch, now).status == Submitted
    ensures app.stamp.None? && ch.finalSubmission != Some(true) ==>
      Updated(app, ch, now).stamp.None? && Updated(app, ch, now).status == app.status
  {
  }

  /** The payload as written lets a final submission that sets the
      acknowledgement to false through when the instance had it, and the
      update then stores a final submission without acknowledgement. */
  lemma WithdrawnAcknowledgementPasses()
    ensures var app := Application(7, Draft, None, false, true, []);
      var ch := AppChanges(Some(true), Some(false), []);
      SubmissionCheckAsWritten(ch, Some(app), s => false).None?
      && Updated(app, ch, DateTime(Date(2024, 1, 1), "")).finalSubmission
      && !Updated(app, ch, DateTime(Date(2024, 1, 1), "")).codeOfEthics
  {
    var ch := AppChanges(Some(true), Some(false), []);
    assert Homoglyphs.Safe(ch.fields, s => false);
  }

  /** With the intended check, an application left with a final submission
      after a validated update carries the acknowledgement. */
  lemma SubmittedIsAcknowledged(app: Application, ch: AppChanges, dangerous: string -> bool, now: DateTime)
    requires SubmissionCheck(ch, Some(app), dangerous).None?
    requires ch.finalSubmission == Some(true)
    ensures Updated(app, ch, now).finalSubmission && Updated(app, ch, now).codeOfEthics
  {
  }

  // Permissions

  /** Who gets an object permission: a user or a group. */
  datatype Holder = UserHolder(user: nat) | GroupHolder(group: nat)

  /** `ApplicationSerializer.get_permissions_map`, given the reviewers
      group: the applicant may view and change; once the application leaves
      DRAFT the reviewers may too. */
  function PermissionsMap(app: Application, reviewers: nat): (m: map<string, seq<Holder>>)
    ensures m.Keys == {"view_application", "change_application"}
  {
    var holders := if app.status != Draft then [UserHolder(app.applicant), GroupHolder(reviewers)] else [UserHolder(app.applicant)];
    map["view_application" := holders, "change_application" := holders]
  }

  /** The applicant always holds both permissions; the reviewers hold them
      exactly when the application is not a draft; nobody else holds any. */
  lemma PermissionsGranted(app: Application, reviewers: nat, perm: string, h: Holder)
    requires perm in PermissionsMap(app, reviewers)
    ensures h == UserHolder(app.applicant) ==> h in PermissionsMap(app, reviewers)[perm]
    ensures h == GroupHolder(reviewers) ==> (h in PermissionsMap(app, reviewers)[perm] <==> app.status != Draft)
    ensures h in PermissionsMap(app, reviewers)[perm] ==> h == UserHolder(app.applicant) || h == GroupHolder(reviewers)
  {
  }

  // Application courses

  /** The validated fields of an application course. */
  datatype CourseData = CourseData(application: Option<nat>, reference: Option<string>, fields: Dict)

  /** What the homoglyph check sees: the text fields and the external
      reference. */
  predicate CourseSafe(data: CourseData, dangerous: string -> bool) {
    Homoglyphs.Safe(data.fields, dangerous) && (data.reference.None? || !dangerous(data.reference.value))
  }

  /** The rows of the application tables. */
  class ApplicationStore {
    var applications: map<nat, Application>
    var experiences: map<nat, Experience>
    var courses: map<nat, AppCourse>

    /** Every experience has its dates in order. */
    ghost predicate DatesOrdered()
      reads this
    {
      forall k :: k in experiences ==> Ordered(experiences[k].start, experiences[k].end)
    }

    constructor ()
      ensures applications == map[] && experiences == map[] && courses == map[]
    {
      applications, experiences, courses := map[], map[], map[];
    }

    /** Creating experience `id` from validated data; `application` is
        required. */
    method CreateExperience(id: nat, data: ExperienceData, dangerous: string -> bool) returns (r: Result<nat>)
      requires id !in experiences
      modifies this
      ensures applications == old(applications) && courses == old(courses)
      ensures data.application.None? ==> r == Err(ValidationError(RequiredError))
      ensures data.application.Some? ==> (r.Ok? <==> ExperienceValidated(data, None, applications, dangerous).Ok?)
      ensures r.Ok? ==> r.value == id && data.application.Some? && Editable(applications[data.application.value].status)
      ensures r.Ok? ==> experiences == old(experiences)[id := Experience(data.application.value, Written(data.start, None),
                                                                         Written(data.end, None), data.fields)]
      ensures r.Err? ==> experiences == old(experiences)
      ensures old(DatesOrdered()) ==> DatesOrdered()
    {
      if data.application.None? {
        return Err(ValidationError(RequiredError));
      }
      var valid := ExperienceValidated(data, None, applications, dangerous);
      if valid.Err? {
        return Err(valid.error);
      }
      experiences := experiences[id := Experience(data.application.value, Written(data.start, None),
                                                  Written(data.end, None), data.fields)];
      r := Ok(id);
    }

    /** `ApplicationExperienceSerializer` validation then `update`: a payload
        naming another application is refused, otherwise the validated
        fields are written over the row. */
    method UpdateExperience(id: nat, data: ExperienceData, dangerous: string -> bool) returns (r: Result<nat>)
      requires id in experiences
      modifies this
      ensures applications == old(applications) && courses == old(courses)
      ensures r.Ok? <==>
        ExperienceValidated(data, Some(old(experiences)[id]), applications, dangerous).Ok?
        && (data.application.None? || data.application.value == old(experiences)[id].application)
      ensures (ExperienceValidated(data, Some(old(experiences)[id]), applications, dangerous).Ok?
               && data.application.Some? && data.application.value != old(experiences)[id].application) ==>
        r == Err(ValidationError(PlanSync.ParentIdUpdateError))
      ensures r.Ok? ==> r.value == id
      ensures r.Ok? && data.application.Some? ==> Editable(applications[old(experiences)[id].application].status)
      ensures r.Ok? ==> experiences == old(experiences)[id := Experience(
        old(experiences)[id].application,
        Written(data.start, old(experiences)[id].start), Written(data.end, old(experiences)[id].end),
        LearningPlans.Overlay(old(experiences)[id].fields, data.fields))]
      ensures r.Err? ==> experiences == old(experiences)
      ensures old(DatesOrdered()) ==> DatesOrdered()
    {
      var e := experiences[id];
      var valid := ExperienceValidated(data, Some(e), applications, dangerous);
      if valid.Err? {
        return Err(valid.error);
      }
      if data.application.Some? && data.application.value != e.application {
        return Err(ValidationError(PlanSync.ParentIdUpdateError));
      }
      var fields := LearningPlans.ApplyAttributes(e.fields, data.fields);
      experiences := experiences[id := Experience(e.application, Written(data.start, e.start), Written(data.end, e.end), fields)];
      r := Ok(id);
    }

    /** `ApplicationSerializer.update` by `user`: the applicant may not edit
        an application that is no longer editable; otherwise the submission
        is handled and the fields written. */
    method UpdateApplication(id: nat, user: nat, ch: AppChanges, dangerous: string -> bool, now: DateTime)
      returns (r: Result<nat>)
      requires id in applications
      modifies this
      ensures experiences == old(experiences) && courses == old(courses)
      ensures SubmissionCheckAsWritten(ch, Some(old(applications)[id]), dangerous).Some? ==>
        r == Err(SubmissionCheckAsWritten(ch, Some(old(applications)[id]), dangerous).value)
      ensures (SubmissionCheckAsWritten(ch, Some(old(applications)[id]), dangerous).None?
               && user == old(applications)[id].applicant && !Editable(old(applications)[id].status)) ==>
        r == Err(ValidationError(CannotEditError))
      ensures r.Ok? <==>
        SubmissionCheckAsWritten(ch, Some(old(applications)[id]), dangerous).None?
        && (user != old(applications)[id].applicant || Editable(old(applications)[id].status))
      ensures r.Ok? ==> r.value == id && applications == old(applications)[id := Updated(old(applications)[id], ch, now)]
      ensures r.Ok? && ch.finalSubmission == Some(true) ==>
        applications[id].finalSubmission && (ch.codeOfEthics == Some(true) || old(applications)[id].codeOfEthics)
      ensures r.Err? ==> applications == old(applications)
    {
      var app := applications[id];
      var check := SubmissionCheckAsWritten(ch, Some(app), dangerous);
      if check.Some? {
        return Err(check.value);
      }
      if user == app.applicant && !Editable(app.status) {
        return Err(ValidationError(CannotEditError));
      }
      var status, stamp := app.status, app.stamp;
      if ch.finalSubmission == Some(true) && stamp.None? {
        stamp := Some(now);
        status := Submitted;
      }
      var fields := LearningPlans.ApplyAttributes(app.fields, ch.fields);
      applications := applications[id := Application(
        app.applicant, status, stamp,
        if ch.finalSubmission.Some? then ch.finalSubmission.value else app.finalSubmission,
        if ch.codeOfEthics.Some? then ch.codeOfEthics.value else app.codeOfEthics,
        fields)];
      r := Ok(id);
    }

    /** `ApplicationCourseSerializer` validation then `create`: the
        application and the external reference are required, the guard and
        the homoglyph check run, the course is resolved in the catalog (an
        XDS failure creates nothing), then the row is inserted. */
    method CreateCourse(tables: Tables, xds: Service, xdsBase: string, id: nat, data: CourseData,
                        dangerous: string -> bool, now: int)
      returns (r: Result<nat>)
      requires xdsBase != [] && id !in courses
      modifies this, tables, xds
      ensures applications == old(applications) && experiences == old(experiences)
      ensures data.application.None? || data.reference.None? ==>
        r == Err(ValidationError(RequiredError)) && courses == old(courses) && tables.courses == old(tables.courses)
      ensures r.Ok? ==> data.application.Some? && data.reference.Some?
      ensures r.Ok? <==>
        data.application.Some? && data.reference.Some?
        && GuardAsWritten(CourseChild, data.application, applications).None? && CourseSafe(data, dangerous)
        && PlanSync.CatalogName(old(tables.courses), old(xds.script), [], CourseLink, data.reference.value).Ok?
      ensures r.Ok? ==> r.value == id && Editable(applications[data.application.value].status)
      ensures r.Ok? ==> data.reference.value in tables.courses
      ensures r.Ok? ==> courses == old(courses)[id := AppCourse(data.application.value, data.reference, data.fields)]
      ensures r.Err? ==> courses == old(courses)
    {
      if data.application.None? || data.reference.None? {
        return Err(ValidationError(RequiredError));
      }
      var guard := GuardAsWritten(CourseChild, data.application, applications);
      if guard.Some? {
        return Err(guard.value);
      }
      if !CourseSafe(data, dangerous) {
        return Err(ValidationError(HomoglyphError));
      }
      var resolved := tables.ResolveCourse(xds, xdsBase, data.reference.value, now);
      if resolved.Err? {
        return Err(resolved.error);
      }
      courses := courses[id := AppCourse(data.application.value, data.reference, data.fields)];
      r := Ok(id);
    }

    /** `ApplicationCourseSerializer` validation then `update`: the guard
        and the homoglyph check, the parent check, the resolution of a new
        reference, then the `setattr` loop. */
    method UpdateCourse(tables: Tables, xds: Service, xdsBase: string, id: nat, data: CourseData,
                        dangerous: string -> bool, now: int)
      returns (r: Result<nat>)
      requires xdsBase != [] && id in courses
      modifies this, tables, xds
      ensures applications == old(applications) && experiences == old(experiences)
      ensures r.Ok? <==>
        GuardAsWritten(CourseChild, data.application, applications).None?
        && CourseSafe(data, dangerous)
        && (data.application.None? || data.application.value == old(courses)[id].application)
        && (data.reference.None?
            || PlanSync.CatalogName(old(tables.courses), old(xds.script), [], CourseLink, data.reference.value).Ok?)
      ensures r.Ok? ==> r.value == id
      ensures r.Ok? && data.application.Some? ==> Editable(applications[old(courses)[id].application].status)
      ensures r.Ok? && data.reference.Some? ==> data.reference.value in tables.courses
      ensures r.Ok? ==> courses == old(courses)[id := AppCourse(
        old(courses)[id].application,
        if data.reference.Some? then data.reference else old(courses)[id].course,
        LearningPlans.Overlay(old(courses)[id].fields, data.fields))]
      ensures r.Err? ==> courses == old(courses)
    {
      var c := courses[id];
      var guard := GuardAsWritten(CourseChild, data.application, applications);
      if guard.Some? {
        return Err(guard.value);
      }
      if !CourseSafe(data, dangerous) {
        return Err(ValidationError(HomoglyphError));
      }
      if data.application.Some? && data.application.value != c.application {
        return Err(ValidationError(PlanSync.ParentIdUpdateError));
      }
      var course := c.course;
      if data.reference.Some? {
        var resolved := tables.ResolveCourse(xds, xdsBase, data.reference.value, now);
        if resolved.Err? {
          return Err(resolved.error);
        }
        course := data.reference;
      }
      var fields := LearningPlans.ApplyAttributes(c.fields, data.fields);
      courses := courses[id := AppCourse(c.application, course, fields)];
      r := Ok(id);
    }
  }
}
