/** The decision logic of the ELRR (enterprise learner record repository)
    client: payload validators, the meaning of each reply, the goal document the
    portal builds, and the reconciliation of a goal's id arrays. The requests
    themselves are in `ElrrClient`. */
module Elrr {
  import opened Outcomes
  import opened JsonValues
  import opened Calendar
  import opened Remote
  import Eccr

  /** `'k' in d and d['k']`: the key is present with a truthy value. */
  predicate Filled(d: Dict, k: string) {
    Truthy(Get(d, k))
  }

  /** The exceptions the ELRR client lets out: its own ValueError and
      ConnectionError, and the TypeError/KeyError/IndexError of a malformed
      document. */
  predicate ClientError(e: Exc) {
    e == ValueError || e == ConnectionError || e == Uncaught
  }

  /** `validate_person`: a person needs a first name or a full name, and a last
      name or a full name. */
  function ValidatePerson(person: Dict): (ok: bool)
    ensures ok <==> ((Filled(person, "firstName") || Filled(person, "name"))
                     && (Filled(person, "lastName") || Filled(person, "name")))
  {
    if !Filled(person, "firstName") && !Filled(person, "name") then false
    else if !Filled(person, "lastName") && !Filled(person, "name") then false
    else true
  }

  /** `validate_elrr_goal`, `validate_elrr_competency` and
      `validate_elrr_learning_resource`: an empty payload or one without a truthy
      `id` raises ValueError; a truthy payload that is not an object fails on
      `.get`. On success the object's fields are handed back. */
  function CheckRecord(j: Json): (r: Result<Dict>)
    ensures r.Ok? <==> j.JObj? && Filled(j.fields, "id")
    ensures r.Ok? ==> r.value == j.fields
    ensures r.Err? && (!Truthy(j) || j.JObj?) ==> r.error == ValueError
    ensures r.Err? && Truthy(j) && !j.JObj? ==> r.error == Uncaught
    ensures r.Err? ==> ClientError(r.error)
  {
    if !Truthy(j) then Err(ValueError)
    else if !j.JObj? then Err(Uncaught)
    else if !Filled(j.fields, "id") then Err(ValueError)
    else Ok(j.fields)
  }

  /** `validate_elrr_person`: a record that also passes `validate_person`. */
  function CheckPerson(j: Json): (r: Result<Dict>)
    ensures r.Ok? <==> j.JObj? && Filled(j.fields, "id") && ValidatePerson(j.fields)
    ensures r.Ok? ==> r.value == j.fields
    ensures r.Err? && (!Truthy(j) || j.JObj?) ==> r.error == ValueError
    ensures r.Err? ==> ClientError(r.error)
  {
    if !Truthy(j) then Err(ValueError)
    else if !j.JObj? then Err(Uncaught)
    else if !Filled(j.fields, "id") || !ValidatePerson(j.fields) then Err(ValueError)
    else Ok(j.fields)
  }

  /** `seq[0]` on a decoded body known to be truthy: the first element of a
      list; any other truthy value (an object, a string, a number) ends in an
      uncaught error, either at the indexing or in the validator's `.get`. */
  function FirstElement(j: Json): (r: Result<Json>)
    requires Truthy(j)
    ensures r.Ok? <==> j.JList?
    ensures r.Ok? ==> r.value == j.items[0]
    ensures r.Err? ==> r.error == Uncaught
    ensures r.Err? ==> ClientError(r.error)
  {
    if j.JList? then Ok(j.items[0]) else Err(Uncaught)
  }

  // ---- what each reply means ----

  /** `get_elrr_person_id_by_email`: 200 with a non-empty list gives the first
      person's id (after validation), 200 with an empty body or 404 give None,
      any other status or no answer gives ConnectionError. */
  function PersonLookup(reply: Reply): (r: Result<Option<Json>>)
    ensures reply.Unreachable? ==> r == Err(ConnectionError)
    ensures StatusOf(reply) == Some(404) ==> r == Ok(None)
    ensures reply.Reply? && reply.status == 200 && !Truthy(reply.body) ==> r == Ok(None)
    ensures StatusOf(reply).Some? && StatusOf(reply).value !in {200, 404} ==> r == Err(ConnectionError)
    ensures r.Ok? && r.value.Some? ==> Truthy(r.value.value)
    ensures r.Err? ==> ClientError(r.error)
  {
    match reply
    case Unreachable => Err(ConnectionError)
    case NonJson(status) => if status == 404 then Ok(None) else Err(ConnectionError)
    case Reply(status, body) =>
      if status == 200 then
        if !Truthy(body) then Ok(None)
        else match FirstElement(body)
          case Err(e) => Err(e)
          case Ok(first) =>
            match CheckPerson(first)
            case Err(e) => Err(e)
            case Ok(person) => Ok(Some(Get(person, "id")))
      else if status == 404 then Ok(None)
      else Err(ConnectionError)
  }

  /** `create_elrr_person`: 200 or 201 with a valid person gives its id. */
  function PersonCreated(reply: Reply): (r: Result<Json>)
    ensures (StatusOf(reply).None? || StatusOf(reply).value !in {200, 201}) ==> r == Err(ConnectionError)
    ensures r.Ok? ==> reply.Reply? && reply.status in {200, 201} && CheckPerson(reply.body).Ok?
    ensures r.Ok? ==> r.value == Get(reply.body.fields, "id") && Truthy(r.value)
    ensures r.Err? ==> ClientError(r.error)
  {
    if reply.Unreachable? || StatusOf(reply).value !in {200, 201} then Err(ConnectionError)
    else match DecodedBody(reply)
      case Err(e) => Err(e)
      case Ok(body) =>
        match CheckPerson(body)
        case Err(e) => Err(e)
        case Ok(person) => Ok(Get(person, "id"))
  }

  /** The decoded and validated record of a reply with an accepted status. */
  function AcceptedRecord(reply: Reply): (r: Result<Dict>)
    requires !reply.Unreachable?
    ensures r.Ok? ==> reply.Reply? && CheckRecord(reply.body) == r
    ensures reply.NonJson? ==> r == Err(ConnectionError)
    ensures r.Err? ==> ClientError(r.error)
  {
    match DecodedBody(reply)
    case Err(e) => Err(e)
    case Ok(body) => CheckRecord(body)
  }

  /** `get_elrr_goal`: 200 gives the validated goal, 404 ValueError, any other
      status or no answer ConnectionError. */
  function GoalFetched(reply: Reply): (r: Result<Dict>)
    ensures StatusOf(reply) == Some(404) ==> r == Err(ValueError)
    ensures (StatusOf(reply).None? || StatusOf(reply).value !in {200, 404}) ==> r == Err(ConnectionError)
    ensures r.Ok? ==> reply.Reply? && reply.status == 200 && CheckRecord(reply.body) == r
    ensures r.Err? ==> ClientError(r.error)
  {
    if reply.Unreachable? then Err(ConnectionError)
    else if StatusOf(reply).value == 200 then AcceptedRecord(reply)
    else if StatusOf(reply).value == 404 then Err(ValueError)
    else Err(ConnectionError)
  }

  /** `create_elrr_goal`, and the create step of the competency and learning
      resource get-or-create: 200 or 201 give the validated record. */
  function RecordCreated(reply: Reply): (r: Result<Dict>)
    ensures (StatusOf(reply).None? || StatusOf(reply).value !in {200, 201}) ==> r == Err(ConnectionError)
    ensures r.Ok? ==> reply.Reply? && reply.status in {200, 201} && CheckRecord(reply.body) == r
    ensures r.Err? ==> ClientError(r.error)
  {
    if reply.Unreachable? || StatusOf(reply).value !in {200, 201} then Err(ConnectionError)
    else AcceptedRecord(reply)
  }

  /** `update_elrr_goal` once the request is sent: only 200 is accepted. */
  function GoalUpdated(reply: Reply): (r: Result<Dict>)
    ensures StatusOf(reply) != Some(200) ==> r == Err(ConnectionError)
    ensures r.Ok? ==> reply.Reply? && reply.status == 200 && CheckRecord(reply.body) == r
    ensures r.Err? ==> ClientError(r.error)
  {
    if StatusOf(reply) != Some(200) then Err(ConnectionError)
    else AcceptedRecord(reply)
  }

  /** `remove_goal_from_elrr`: 204 gives True, 404 ValueError, anything else
      ConnectionError. The body is never read. */
  function GoalRemoved(reply: Reply): (r: Result<bool>)
    ensures r.Ok? <==> StatusOf(reply) == Some(204)
    ensures r.Ok? ==> r.value
    ensures r.Err? ==> r.error == if StatusOf(reply) == Some(404) then ValueError else ConnectionError
  {
    match StatusOf(reply)
    case None => Err(ConnectionError)
    case Some(status) =>
      if status == 204 then Ok(true)
      else if status == 404 then Err(ValueError)
      else Err(ConnectionError)
  }

  /** The lookup step of `get_or_create_elrr_competency` and
      `get_or_create_elrr_learning_resource`: a 200 with a truthy body settles
      the matter with its first element; anything else but a failed request
      falls through to the create step (None). */
  function LookupSettled(reply: Reply): (r: Option<Result<Dict>>)
    ensures reply.Unreachable? ==> r == Some(Err(ConnectionError))
    ensures StatusOf(reply).Some? && StatusOf(reply).value != 200 ==> r == None
    ensures reply.Reply? && reply.status == 200 && !Truthy(reply.body) ==> r == None
    ensures r.Some? && r.value.Err? ==> ClientError(r.value.error)
    ensures reply.Reply? && reply.status == 200 && reply.body.JList? && reply.body.items != [] ==>
      r == Some(CheckRecord(reply.body.items[0]))
  {
    match reply
    case Unreachable => Some(Err(ConnectionError))
    case NonJson(status) => if status == 200 then Some(Err(ConnectionError)) else None
    case Reply(status, body) =>
      if status != 200 || !Truthy(body) then None
      else match FirstElement(body)
        case Err(e) => Some(Err(e))
        case Ok(first) => Some(CheckRecord(first))
  }

  // ---- payloads ----

  /** The body `create_elrr_person` posts. */
  function PersonPayload(firstName: string, lastName: string, email: string): Dict {
    [ Field("firstName", JStr(firstName)),
      Field("lastName", JStr(lastName)),
      Field("name", JStr(firstName + " " + lastName)),
      Field("emailAddresses", JList([JObj([Field("emailAddress", JStr(email))])])) ]
  }

  /** The person the portal creates always satisfies `validate_person`, even
      with empty first and last names, because the full name holds a space. */
  lemma PersonPayloadIsValid(firstName: string, lastName: string, email: string)
    ensures ValidatePerson(PersonPayload(firstName, lastName, email))
  {
    var p := PersonPayload(firstName, lastName, email);
    assert p[2].key == "name";
    assert Get(p, "name") == JStr(firstName + " " + lastName);
    assert (firstName + " " + lastName)[|firstName|] == ' ';
  }

  /** `calculate_goal_achieved_by_date`: None for a zero (falsy) month count,
      otherwise the start moved by that many calendar months, time of day kept. */
  function AchievedBy(start: DateTime, timeline: int): (r: Result<Option<DateTime>>)
    requires ValidDate(start.date)
    ensures timeline == 0 ==> r == Ok(None)
    ensures timeline != 0 && AddMonths(start.date, timeline).Ok? ==>
      r == Ok(Some(DateTime(AddMonths(start.date, timeline).value, start.clock)))
    ensures timeline != 0 && AddMonths(start.date, timeline).Err? ==> r == Err(ValueError)
    ensures r.Err? ==> ClientError(r.error)
  {
    if timeline == 0 then Ok(None)
    else match AddMonths(start.date, timeline)
      case Err(e) => Err(e)
      case Ok(d) => Ok(Some(DateTime(d, start.clock)))
  }

  /** Decimal text of a natural number, as an f-string prints an int. */
  function NatText(n: nat): (s: string)
    ensures |s| >= 1
    ensures forall i :: 0 <= i < |s| ==> IsDigit(s[i])
  {
    if n < 10 then [DigitChar(n)] else NatText(n / 10) + [DigitChar(n % 10)]
  }

  /** `str()` of an id held in a JSON value or a nullable column. Lists and
      objects, which never serve as ids, get a placeholder. */
  function IdText(id: Json): string {
    match id
    case JNull => "None"
    case JBool(b) => if b then "True" else "False"
    case JNum(n) => if n < 0 then "-" + NatText(-n) else NatText(n)
    case JStr(s) => s
    case JList(_) => "[...]"
    case JObj(_) => "{...}"
  }

  /** The goal row as the ELRR client reads it. */
  datatype GoalView = GoalView(id: nat, goalName: string, timeline: int, created: DateTime)

  predicate ValidGoalView(g: GoalView) {
    ValidDate(g.created.date)
  }

  function GoalKey(id: nat): string {
    "portal-goal-" + NatText(id)
  }

  /** `build_goal_data_for_elrr`: person, portal key, name, type SELF and start
      date, plus the achieved-by date when the timeline is not zero. */
  function GoalData(g: GoalView, personId: Json): (r: Result<Dict>)
    requires ValidGoalView(g)
    ensures r.Err? <==> AchievedBy(g.created, g.timeline).Err?
    ensures r.Ok? ==> |r.value| >= 5
    ensures r.Ok? ==> r.value[..5] == [ Field("personId", personId), Field("goalId", JStr(GoalKey(g.id))),
                           Field("name", JStr(g.goalName)), Field("type", JStr("SELF")),
                           Field("startDate", JStr(IsoFormat(g.created))) ]
  {
    var data := [ Field("personId", personId), Field("goalId", JStr(GoalKey(g.id))),
                  Field("name", JStr(g.goalName)), Field("type", JStr("SELF")),
                  Field("startDate", JStr(IsoFormat(g.created))) ];
    match AchievedBy(g.created, g.timeline)
    case Err(e) => Err(e)
    case Ok(None) => Ok(data)
    case Ok(Some(t)) =>
      AddMonthsValidDate(g.created.date, g.timeline);
      assert (data + [Field("achievedByDate", JStr(IsoFormat(t)))])[..5] == data;
      Ok(data + [Field("achievedByDate", JStr(IsoFormat(t)))])
  }

  lemma AddMonthsValidDate(d: Date, n: int)
    requires ValidDate(d) && AddMonths(d, n).Ok?
    ensures ValidDate(AddMonths(d, n).value)
  {
  }

  /** The goal document carries an achieved-by date exactly when the timeline
      is not zero, and then it is the start date moved by the timeline. */
  lemma GoalDataAchievedBy(g: GoalView, personId: Json)
    requires ValidGoalView(g) && GoalData(g, personId).Ok?
    ensures var d := GoalData(g, personId).value;
      HasKey(d, "achievedByDate") <==> g.timeline != 0
    ensures var d := GoalData(g, personId).value;
      g.timeline != 0 ==> Get(d, "achievedByDate") == JStr(IsoFormat(AchievedBy(g.created, g.timeline).value.value))
  {
    var d := GoalData(g, personId).value;
    var front := d[..5];
    assert !HasKey(front, "achievedByDate");
    if g.timeline == 0 {
      assert d == front;
    } else {
      assert d == front + [d[5]];
      GetAppend(front, d[5], "achievedByDate");
    }
  }

  // ---- reconciling a goal's id arrays ----

  /** `list.remove(x)` on a list holding `x`: drop its first occurrence. */
  function RemoveFirst(s: seq<Json>, x: Json): (r: seq<Json>)
    ensures x in s ==> |r| == |s| - 1
    ensures x !in s ==> r == s
  {
    if s == [] then []
    else if s[0] == x then s[1..]
    else [s[0]] + RemoveFirst(s[1..], x)
  }

  function FirstIndex(s: seq<Json>, x: Json): (i: nat)
    requires x in s
    ensures i < |s| && s[i] == x && x !in s[..i]
  {
    if s[0] == x then 0 else 1 + FirstIndex(s[1..], x)
  }

  /** Removal splices out exactly the first occurrence: everything before it
      and everything after it keeps its order. */
  lemma {:induction false} RemoveFirstSplices(s: seq<Json>, x: Json)
    requires x in s
    ensures RemoveFirst(s, x) == s[..FirstIndex(s, x)] + s[FirstIndex(s, x) + 1..]
  {
    if s[0] != x {
      var t := s[1..];
      var i := FirstIndex(t, x);
      RemoveFirstSplices(t, x);
      assert FirstIndex(s, x) == i + 1;
      assert s[..i + 1] == [s[0]] + t[..i];
      assert s[i + 2..] == t[i + 1..];
      AppendAssoc([s[0]], t[..i], t[i + 1..]);
    } else {
      assert s[..0] + s[1..] == s[1..];
    }
  }

  function Count(s: seq<Json>, x: Json): nat {
    if s == [] then 0 else (if s[0] == x then 1 else 0) + Count(s[1..], x)
  }

  lemma {:induction false} CountRemoveFirst(s: seq<Json>, x: Json, y: Json)
    requires x in s
    ensures Count(RemoveFirst(s, x), y) == Count(s, y) - (if y == x then 1 else 0)
  {
    if s[0] != x {
      CountRemoveFirst(s[1..], x, y);
      assert RemoveFirst(s, x)[1..] == RemoveFirst(s[1..], x);
    }
  }

  /** The array after `store_ksa_to_elrr_goal` / `store_course_to_elrr_goal`:
      the first copy of a truthy old id is removed when present, then the new id
      is appended unless already there. */
  function Reconciled(ids: seq<Json>, oldId: Json, newId: Json): seq<Json> {
    var kept := if Truthy(oldId) && oldId in ids then RemoveFirst(ids, oldId) else ids;
    if newId in kept then kept else kept + [newId]
  }

  predicate Distinct(s: seq<Json>) {
    forall i, j :: 0 <= i < j < |s| ==> s[i] != s[j]
  }

  /** After a store the new id is in the array exactly once (when the array had
      no duplicates), a truthy old id different from it has lost one copy, and
      every other id kept its count. */
  lemma ReconciledCounts(ids: seq<Json>, oldId: Json, newId: Json, y: Json)
    ensures newId in Reconciled(ids, oldId, newId)
    ensures Truthy(oldId) && oldId != newId && oldId in ids ==>
      Count(Reconciled(ids, oldId, newId), oldId) == Count(ids, oldId) - 1
    ensures y != oldId && y != newId ==> Count(Reconciled(ids, oldId, newId), y) == Count(ids, y)
  {
    var kept := if Truthy(oldId) && oldId in ids then RemoveFirst(ids, oldId) else ids;
    if Truthy(oldId) && oldId in ids {
      CountRemoveFirst(ids, oldId, oldId);
      CountRemoveFirst(ids, oldId, y);
    }
    if newId !in kept {
      CountAppend(kept, newId, oldId);
      CountAppend(kept, newId, y);
    }
  }

  lemma {:induction false} CountAppend(s: seq<Json>, x: Json, y: Json)
    ensures Count(s + [x], y) == Count(s, y) + (if x == y then 1 else 0)
  {
    if s != [] {
      CountAppend(s[1..], x, y);
      assert (s + [x])[1..] == s[1..] + [x];
    }
  }

  /** The ids other than the new one keep their relative order: the result is
      the array with at most one element spliced out, then possibly the new id. */
  lemma ReconciledKeepsOrder(ids: seq<Json>, oldId: Json, newId: Json)
    ensures var r := Reconciled(ids, oldId, newId);
      (Truthy(oldId) && oldId in ids ==>
         var i := FirstIndex(ids, oldId);
         r == ids[..i] + ids[i + 1..] || r == ids[..i] + ids[i + 1..] + [newId])
      && (!(Truthy(oldId) && oldId in ids) ==> r == ids || r == ids + [newId])
  {
    if Truthy(oldId) && oldId in ids {
      RemoveFirstSplices(ids, oldId);
    }
  }

  lemma {:induction false} DistinctRemoveFirst(s: seq<Json>, x: Json)
    requires Distinct(s) && x in s
    ensures Distinct(RemoveFirst(s, x)) && x !in RemoveFirst(s, x)
  {
    RemoveFirstSplices(s, x);
    var i := FirstIndex(s, x);
    var r := s[..i] + s[i + 1..];
    forall a, b | 0 <= a < b < |r| ensures r[a] != r[b] {
      var a', b' := if a < i then a else a + 1, if b < i then b else b + 1;
      assert r[a] == s[a'] && r[b] == s[b'];
    }
  }

  /** A duplicate-free array stays duplicate-free, and an old id that differs
      from the new one is gone from it. */
  lemma ReconciledDistinct(ids: seq<Json>, oldId: Json, newId: Json)
    requires Distinct(ids)
    ensures Distinct(Reconciled(ids, oldId, newId))
    ensures Truthy(oldId) && oldId != newId ==> oldId !in Reconciled(ids, oldId, newId)
  {
    if Truthy(oldId) && oldId in ids {
      DistinctRemoveFirst(ids, oldId);
    }
  }

  /** Storing the same link twice changes nothing the second time when the
      array has no duplicates and the old id is not the new one. */
  lemma ReconciledIdempotent(ids: seq<Json>, oldId: Json, newId: Json)
    requires Distinct(ids) && oldId != newId
    ensures Reconciled(Reconciled(ids, oldId, newId), oldId, newId) == Reconciled(ids, oldId, newId)
  {
    ReconciledDistinct(ids, oldId, newId);
    ReconciledCounts(ids, oldId, newId, newId);
  }

  /** The array after `remove_ksa_from_elrr_goal` / `remove_course_from_elrr_goal`,
      or None when the id is absent and the goal is left alone. */
  function Unlinked(ids: seq<Json>, id: Json): (r: Option<seq<Json>>)
    ensures r.Some? <==> id in ids
    ensures r.Some? ==> Count(r.value, id) == Count(ids, id) - 1
  {
    if id in ids then
      CountRemoveFirst(ids, id, id);
      Some(RemoveFirst(ids, id))
    else None
  }

  /** Which array of the goal document a link kind lives in. */
  datatype LinkKind = KsaLink | CourseLink

  function ArrayKey(kind: LinkKind): string {
    match kind
    case KsaLink => "competencyIds"
    case CourseLink => "learningResourceIds"
  }

  /** The ELRR collection a link kind's records live in. */
  function Endpoint(kind: LinkKind): string {
    match kind
    case KsaLink => "competency"
    case CourseLink => "learningresource"
  }

  /** The query parameter the lookup filters on. */
  function LookupParam(kind: LinkKind): string {
    match kind
    case KsaLink => "identifier"
    case CourseLink => "iri"
  }

  /** The record posted when the lookup finds nothing: a competency points back
      at the ECCR data endpoint; a learning resource carries its IRI and title. */
  function ResourcePayload(kind: LinkKind, eccrBase: string, reference: string, name: string): (d: Dict)
    requires kind.KsaLink? ==> eccrBase != []
    ensures Get(d, LookupParam(kind)) == JStr(reference)
  {
    match kind
    case KsaLink =>
      var d := [ Field("type", JStr("COMPETENCY")), Field("identifier", JStr(reference)),
                 Field("identifierUrl", JStr(Eccr.DataUrl(eccrBase) + reference)),
                 Field("frameworkTitle", JStr("ECCR")), Field("statement", JStr(name)) ];
      assert d[1..][0].key == "identifier";
      d
    case CourseLink => [Field("iri", JStr(reference)), Field("title", JStr(name))]
  }

  /** `goal_data.get(key, [])`: the value under the link kind's key, the
      empty list when the key is missing. */
  function IdValue(goal: Dict, kind: LinkKind): (v: Json)
    ensures !HasKey(goal, ArrayKey(kind)) ==> v == JList([])
    ensures HasKey(goal, ArrayKey(kind)) ==> v == Get(goal, ArrayKey(kind))
  {
    GetOr(goal, ArrayKey(kind), JList([]))
  }

  /** `t in u` on strings: `t` occurs in `u` at some position. */
  predicate Substring(t: string, u: string)
    decreases |u|
  {
    (|t| <= |u| && u[..|t|] == t) || (u != [] && Substring(t, u[1..]))
  }

  /** A substring is never longer than the string it occurs in, and every
      string occurs in itself followed by anything. */
  lemma {:induction false} SubstringBounds(t: string, u: string)
    ensures Substring(t, u) ==> |t| <= |u|
    ensures Substring(t, t + u)
    decreases |u|
  {
    assert (t + u)[..|t|] == t;
    if u != [] && !(|t| <= |u| && u[..|t|] == t) {
      SubstringBounds(t, u[1..]);
    }
  }

  /** Python's `x in v` on the value read from the goal: membership in a
      list, a substring test on a string, a key test on a dict. A needle
      that is not a string raises TypeError on a string, an unhashable one
      (a list or a dict) on a dict, and `in` on null, a number or a boolean
      raises too. */
  function Contains(v: Json, x: Json): (r: Result<bool>)
    ensures v.JList? ==> r == Ok(x in v.items)
    ensures v.JStr? ==> (r.Ok? <==> x.JStr?) && (r.Ok? ==> r.value == Substring(x.s, v.s))
    ensures v.JObj? ==> (r.Ok? <==> !(x.JList? || x.JObj?)) && (r.Ok? ==> r.value == (x.JStr? && HasKey(v.fields, x.s)))
    ensures (v.JNull? || v.JBool? || v.JNum?) ==> r.Err?
    ensures r.Err? ==> r.error == Uncaught
  {
    match v
    case JList(items) => Ok(x in items)
    case JStr(u) => if x.JStr? then Ok(Substring(x.s, u)) else Err(Uncaught)
    case JObj(fields) =>
      if x.JList? || x.JObj? then Err(Uncaught)
      else Ok(x.JStr? && HasKey(fields, x.s))
    case _ => Err(Uncaught)
  }

  /** The value a store writes back under the key. On a list the old id's
      first copy is dropped and the new id appended when missing. Any other
      value has no `remove` or `append`: it goes back unchanged exactly when
      the old id is not removed and the new id is already "in" it, and the
      store raises otherwise. */
  function StoredIds(v: Json, oldId: Json, newId: Json): (r: Result<Json>)
    ensures v.JList? ==> r == Ok(JList(Reconciled(v.items, oldId, newId)))
    ensures !v.JList? ==>
      (r.Ok? <==> (!Truthy(oldId) || Contains(v, oldId) == Ok(false)) && Contains(v, newId) == Ok(true))
    ensures !v.JList? && r.Ok? ==> r.value == v
    ensures r.Err? ==> r.error == Uncaught
  {
    if v.JList? then Ok(JList(Reconciled(v.items, oldId, newId)))
    else
      var dropOld :- if Truthy(oldId) then Contains(v, oldId) else Ok(false);
      if dropOld then Err(Uncaught)
      else
        var present :- Contains(v, newId);
        if present then Ok(v) else Err(Uncaught)
  }

  /** The value a removal writes back, or None when nothing is written. On a
      list the first copy of the id is removed when it is there; on any other
      value an id that is "in" it makes `remove` raise. */
  function RemovedIds(v: Json, id: Json): (r: Result<Option<Json>>)
    ensures v.JList? ==> r == Ok(if id in v.items then Some(JList(Unlinked(v.items, id).value)) else None)
    ensures !v.JList? ==> (r == Ok(None) <==> Contains(v, id) == Ok(false))
    ensures !v.JList? ==> r != Ok(None) ==> r == Err(Uncaught)
  {
    var present :- Contains(v, id);
    if !present then Ok(None)
    else if v.JList? then Ok(Some(JList(RemoveFirst(v.items, id))))
    else Err(Uncaught)
  }

  /** The fetched document with `name` overwritten when `rename` holds. */
  function Renamed(doc: Dict, name: string, rename: bool): (r: Dict)
    ensures rename ==> Get(r, "name") == JStr(name)
    ensures !rename ==> r == doc
    ensures Get(r, "achievedByDate") == Get(doc, "achievedByDate")
  {
    if rename then
      GetSetSame(doc, "name", JStr(name));
      GetSetOther(doc, "name", JStr(name), "achievedByDate");
      Set(doc, "name", JStr(name))
    else doc
  }

  /** `sync_goal_updates_to_elrr` on the fetched document: `name` and/or
      `achievedByDate` are overwritten for the fields that were updated. */
  function SyncedDocument(doc: Dict, g: GoalView, updated: set<string>): (r: Result<Dict>)
    requires ValidGoalView(g)
    requires "timeline" in updated ==> g.timeline != 0
    ensures r.Err? <==> "timeline" in updated && AchievedBy(g.created, g.timeline).Err?
    ensures r.Ok? && "goal_name" in updated ==> Get(r.value, "name") == JStr(g.goalName)
    ensures r.Ok? && "goal_name" !in updated ==> Get(r.value, "name") == Get(doc, "name")
    ensures r.Ok? && "timeline" in updated ==>
      Get(r.value, "achievedByDate") == JStr(IsoFormat(AchievedBy(g.created, g.timeline).value.value))
    ensures r.Ok? && "timeline" !in updated ==> Get(r.value, "achievedByDate") == Get(doc, "achievedByDate")
    ensures r.Err? ==> ClientError(r.error)
  {
    var named := Renamed(doc, g.goalName, "goal_name" in updated);
    if "timeline" in updated then
      match AchievedBy(g.created, g.timeline)
      case Err(e) => Err(e)
      case Ok(t) =>
        AddMonthsValidDate(g.created.date, g.timeline);
        var v := JStr(IsoFormat(t.value));
        GetSetSame(named, "achievedByDate", v);
        GetSetOther(named, "achievedByDate", v, "name");
        Ok(Set(named, "achievedByDate", v))
    else Ok(named)
  }

  /** Every other field of the fetched goal document is passed back unchanged. */
  lemma SyncKeepsOtherFields(doc: Dict, g: GoalView, updated: set<string>, k: string)
    requires ValidGoalView(g)
    requires "timeline" in updated ==> g.timeline != 0
    requires SyncedDocument(doc, g, updated).Ok?
    requires k != "name" && k != "achievedByDate"
    ensures Get(SyncedDocument(doc, g, updated).value, k) == Get(doc, k)
    ensures HasKey(SyncedDocument(doc, g, updated).value, k) == HasKey(doc, k)
  {
    var named := Renamed(doc, g.goalName, "goal_name" in updated);
    if "goal_name" in updated {
      GetSetOther(doc, "name", JStr(g.goalName), k);
    }
    if "timeline" in updated {
      var t := AchievedBy(g.created, g.timeline).value;
      AddMonthsValidDate(g.created.date, g.timeline);
      GetSetOther(named, "achievedByDate", JStr(IsoFormat(t.value)), k);
    }
  }
}
