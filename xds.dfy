/** The XDS (experience discovery service) helpers: reading a course name out of
    a P2881 record, reshaping experience records for the search engine, the
    experience URL, and the status handling of `validate_xds_course`. */
module Xds {
  import opened Outcomes
  import opened JsonValues
  import opened ApiUrls
  import opened Remote

  /** `k` occurs in `s` as a contiguous piece. */
  predicate IsSubstring(k: string, s: string) {
    k <= s || (s != [] && IsSubstring(k, s[1..]))
  }

  /** Python's `key in container` for a string key: dict membership, list
      membership, substring test; any other value raises TypeError. */
  function Contains(container: Json, key: string): (r: Result<bool>)
    ensures r.Err? <==> !(container.JObj? || container.JList? || container.JStr?)
    ensures r.Err? ==> r.error == Uncaught
    ensures container.JObj? ==> r == Ok(HasKey(container.fields, key))
    ensures container.JList? ==> r == Ok(JStr(key) in container.items)
  {
    match container
    case JObj(f) => Ok(HasKey(f, key))
    case JList(items) => Ok(JStr(key) in items)
    case JStr(s) => Ok(IsSubstring(key, s))
    case _ => Err(Uncaught)
  }

  /** Python's `container[key]` for a string key: only a dict holding the key
      answers; a missing key raises KeyError and any other value TypeError. */
  function Index(container: Json, key: string): (r: Result<Json>)
    ensures r.Ok? <==> container.JObj? && HasKey(container.fields, key)
    ensures r.Ok? ==> r.value == Get(container.fields, key)
    ensures r.Err? ==> r.error == Uncaught
  {
    if container.JObj? && HasKey(container.fields, key) then Ok(Get(container.fields, key))
    else Err(Uncaught)
  }

  /** `get_course_name` on a decoded body: `p2881-core.Title` when the body
      holds "p2881-core" and that holds "Title", else None (JNull). A body or
      core value that `in` and `[]` cannot handle raises. */
  function GetCourseName(body: Json): (r: Result<Json>)
    ensures r.Err? ==> r.error == Uncaught
    ensures body.JObj? && !HasKey(body.fields, "p2881-core") ==> r == Ok(JNull)
    ensures body.JObj? && HasKey(body.fields, "p2881-core") && Get(body.fields, "p2881-core").JObj? ==>
      var core := Get(body.fields, "p2881-core").fields;
      r == Ok(if HasKey(core, "Title") then Get(core, "Title") else JNull)
    ensures body.JObj? && HasKey(body.fields, "p2881-core") && Get(body.fields, "p2881-core").JList? ==>
      r == (if JStr("Title") in Get(body.fields, "p2881-core").items then Err(Uncaught) else Ok(JNull))
  {
    match Contains(body, "p2881-core")
    case Err(e) => Err(e)
    case Ok(hasCore) =>
      if !hasCore then Ok(JNull)
      else
        match Index(body, "p2881-core")
        case Err(e) => Err(e)
        case Ok(core) =>
          match Contains(core, "Title")
          case Err(e) => Err(e)
          case Ok(hasTitle) =>
            if !hasTitle then Ok(JNull)
            else Index(core, "Title")
  }

  /** `get_courses_api_url`, with the configured base as a parameter. */
  function CoursesApiUrl(base: string, courseId: string): (url: string)
    requires base != []
    ensures EndsWith(url, "api/" + ("experiences/" + courseId))
    ensures |base| <= |url| && url[..|base|] == base
  {
    ApiPath(base, "experiences/" + courseId);
    ApiBase(base) + ("experiences/" + courseId)
  }

  /** The request `get_xds_experience` sends: a GET without authentication. */
  function ExperienceRequest(base: string, courseId: string): Request
    requires base != []
  {
    Request(GET, CoursesApiUrl(base, courseId), [], JNull)
  }

  /** `validate_xds_course` on the reply to the experience request: 200 gives
      the course name (possibly None; a body that is not JSON raises
      ValueError), 404 raises ValueError, any other status the built-in
      ConnectionError. A failed request raises the HTTP library's own error,
      which nothing here catches. */
  function ValidateXdsCourse(reply: Reply): (r: Result<Json>)
    ensures reply.Unreachable? ==> r == Err(RequestError)
    ensures reply.Reply? && reply.status == 200 ==> r == GetCourseName(reply.body)
    ensures reply.NonJson? && reply.status == 200 ==> r == Err(ValueError)
    ensures StatusOf(reply) == Some(404) ==> r == Err(ValueError)
    ensures StatusOf(reply).Some? && StatusOf(reply).value != 200 && StatusOf(reply).value != 404 ==>
      r == Err(ConnectionError)
  {
    match reply
    case Unreachable => Err(RequestError)
    case NonJson(status) =>
      if status == 200 || status == 404 then Err(ValueError) else Err(ConnectionError)
    case Reply(status, body) =>
      if status == 200 then GetCourseName(body)
      else if status == 404 then Err(ValueError)
      else Err(ConnectionError)
  }

  /** `format_metadata`: None unless the record holds `metadata.Metadata_Ledger`;
      otherwise that ledger with `Supplemental_Ledger` set (None when the
      metadata lacks one) and `meta` set to the record's identifier and hash.
      The source rewrites the ledger object in place; here the rewritten ledger
      is returned. */
  function FormatMetadata(rec: Json): (r: Result<Json>)
    ensures rec.JObj? && !HasKey(rec.fields, "metadata") ==> r == Ok(JNull)
    ensures rec.JObj? && HasKey(rec.fields, "metadata") && Get(rec.fields, "metadata").JObj? ==>
      (!HasKey(Get(rec.fields, "metadata").fields, "Metadata_Ledger") ==> r == Ok(JNull))
    ensures r.Ok? && r.value != JNull ==>
      (r.value.JObj? && HasKey(r.value.fields, "meta") && HasKey(r.value.fields, "Supplemental_Ledger"))
    ensures r.Err? ==> r.error == Uncaught
  {
    match Contains(rec, "metadata")
    case Err(e) => Err(e)
    case Ok(hasMetadata) =>
      if !hasMetadata then Ok(JNull)
      else
        match Index(rec, "metadata")
        case Err(e) => Err(e)
        case Ok(metadata) =>
          match Contains(metadata, "Metadata_Ledger")
          case Err(e) => Err(e)
          case Ok(hasLedger) =>
            if !hasLedger then Ok(JNull)
            else
              match Index(metadata, "Metadata_Ledger")
              case Err(e) => Err(e)
              case Ok(ledger) =>
                if !ledger.JObj? then Err(Uncaught)
                else
                  var supplemental := GetOr(metadata.fields, "Supplemental_Ledger", JNull);
                  var withSupplemental := Set(ledger.fields, "Supplemental_Ledger", supplemental);
                  match Index(rec, "unique_record_identifier")
                  case Err(e) => Err(e)
                  case Ok(id) =>
                    match Index(rec, "metadata_key_hash")
                    case Err(e) => Err(e)
                    case Ok(hash) =>
                      var meta := JObj([Field("id", id), Field("metadata_key_hash", hash)]);
                      var result := Set(withSupplemental, "meta", meta);
                      GetSetOther(withSupplemental, "meta", meta, "Supplemental_Ledger");
                      Ok(JObj(result))
  }

  /** A well-formed record gives its ledger with exactly two keys assigned:
      `Supplemental_Ledger` (the metadata's, or None) and `meta` (identifier and
      hash); every other key of the ledger keeps its value. */
  lemma FormatMetadataWellFormed(rec: Json, other: string)
    requires rec.JObj? && HasKey(rec.fields, "metadata")
    requires Get(rec.fields, "metadata").JObj?
    requires HasKey(Get(rec.fields, "metadata").fields, "Metadata_Ledger")
    requires Get(Get(rec.fields, "metadata").fields, "Metadata_Ledger").JObj?
    requires HasKey(rec.fields, "unique_record_identifier") && HasKey(rec.fields, "metadata_key_hash")
    requires other != "meta" && other != "Supplemental_Ledger"
    ensures var metadata := Get(rec.fields, "metadata").fields;
      var ledger := Get(metadata, "Metadata_Ledger").fields;
      var r := FormatMetadata(rec);
      r.Ok? && r.value.JObj?
      && Get(r.value.fields, "Supplemental_Ledger") == GetOr(metadata, "Supplemental_Ledger", JNull)
      && Get(r.value.fields, "meta") == JObj([Field("id", Get(rec.fields, "unique_record_identifier")),
                                              Field("metadata_key_hash", Get(rec.fields, "metadata_key_hash"))])
      && Get(r.value.fields, other) == Get(ledger, other)
      && HasKey(r.value.fields, other) == HasKey(ledger, other)
  {
    var metadata := Get(rec.fields, "metadata").fields;
    var ledger := Get(metadata, "Metadata_Ledger").fields;
    var supplemental := GetOr(metadata, "Supplemental_Ledger", JNull);
    var withSupplemental := Set(ledger, "Supplemental_Ledger", supplemental);
    var meta := JObj([Field("id", Get(rec.fields, "unique_record_identifier")),
                      Field("metadata_key_hash", Get(rec.fields, "metadata_key_hash"))]);
    GetSetSame(withSupplemental, "meta", meta);
    GetSetOther(withSupplemental, "meta", meta, "Supplemental_Ledger");
    GetSetSame(ledger, "Supplemental_Ledger", supplemental);
    GetSetOther(withSupplemental, "meta", meta, other);
    GetSetOther(ledger, "Supplemental_Ledger", supplemental, other);
  }

  /** `metadata_to_target` on the value `json.loads` produced: a list is
      formatted record by record into a list of the same length and order, an
      object gives its one formatted record, anything else None. The first
      record that cannot be formatted aborts with its error. */
  method MetadataToTarget(parsed: Json) returns (r: Result<Json>)
    ensures parsed.JObj? ==> r == FormatMetadata(parsed)
    ensures !parsed.JObj? && !parsed.JList? ==> r == Ok(JNull)
    ensures parsed.JList? ==>
      (r.Ok? <==> forall i :: 0 <= i < |parsed.items| ==> FormatMetadata(parsed.items[i]).Ok?)
    ensures parsed.JList? && r.Ok? ==>
      r.value.JList? && |r.value.items| == |parsed.items|
      && forall i :: 0 <= i < |parsed.items| ==> FormatMetadata(parsed.items[i]) == Ok(r.value.items[i])
    ensures parsed.JList? && r.Err? ==>
      exists i :: 0 <= i < |parsed.items| && FormatMetadata(parsed.items[i]) == Err(r.error)
  {
    if parsed.JList? {
      var records := parsed.items;
      var resultList: seq<Json> := [];
      var i := 0;
      while i < |records|
        invariant 0 <= i <= |records|
        invariant |resultList| == i
        invariant forall k :: 0 <= k < i ==> FormatMetadata(records[k]) == Ok(resultList[k])
      {
        var formatted := FormatMetadata(records[i]);
        if formatted.Err? {
          return Err(formatted.error);
        }
        resultList := resultList + [formatted.value];
        i := i + 1;
      }
      r := Ok(JList(resultList));
    } else if parsed.JObj? {
      r := FormatMetadata(parsed);
    } else {
      r := Ok(JNull);
    }
  }
}
