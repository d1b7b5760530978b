/** The ECCR (competency and credential registry) client: the search and data
    endpoints and the bodies the portal posts to them. */
module Eccr {
  import opened Outcomes
  import opened JsonValues
  import opened ApiUrls

  /** `get_eccr_search_api_url`, with the configured base as a parameter. */
  function SearchUrl(base: string): (url: string)
    requires base != []
    ensures EndsWith(url, "api/" + "sky/repo/search/")
    ensures |base| <= |url| && url[..|base|] == base
  {
    ApiPath(base, "sky/repo/search/");
    ApiBase(base) + "sky/repo/search/"
  }

  /** `get_eccr_data_api_url`, with the configured base as a parameter. */
  function DataUrl(base: string): (url: string)
    requires base != []
    ensures EndsWith(url, "api/" + "data/")
    ensures |base| <= |url| && url[..|base|] == base
  {
    ApiPath(base, "data/");
    ApiBase(base) + "data/"
  }

  const NotProgression: string := " AND NOT (subType:\"Progression\")"

  /** The `data` query of `search_eccr`. A given type (even an empty one) adds the
      type filter, which also matches encrypted values of that type; the text
      keeps the backslash before `*encryptedType`, as Python leaves the unknown
      escape `\*` in place. */
  function SearchQuery(query: string, objectType: Option<string>): (q: string)
    ensures EndsWith(q, NotProgression)
  {
    var body := match objectType
      case Some(t) => "((@type:" + t + " OR (EncryptedValue AND \\*encryptedType:" + t + ")) AND " + query + ")"
      case None => "(" + query + ")";
    assert (body + NotProgression)[|body|..] == NotProgression;
    body + NotProgression
  }

  /** The form body of `search_eccr`: paging parameters, then the query. */
  function SearchPayload(query: string, objectType: Option<string>, start: int, length: int): (data: Dict) {
    [ Field("searchParams", JObj([Field("start", JNum(start)), Field("size", JNum(length))])),
      Field("data", JStr(SearchQuery(query, objectType))) ]
  }

  /** The form body of `search_eccr_item`. */
  function SearchItemPayload(id: string): (data: Dict) {
    [Field("data", JStr("(@id:\"" + id + "\")"))]
  }

  /** The URL `get_eccr_item` posts to: the data endpoint, then type and id. */
  function ItemUrl(base: string, objectType: string, id: string): (url: string)
    requires base != []
  {
    DataUrl(base) + objectType + "/" + id
  }

  /** The search query wraps the caller's query between the type filter (when a
      type is given) and the exclusion of progression records. */
  lemma SearchQueryShape(query: string, objectType: Option<string>)
    ensures objectType.None? ==> SearchQuery(query, objectType) == "(" + query + ")" + NotProgression
    ensures objectType.Some? ==>
      var prefix := "((@type:" + objectType.value + " OR (EncryptedValue AND \\*encryptedType:" + objectType.value + ")) AND ";
      SearchQuery(query, objectType) == prefix + query + ")" + NotProgression
  {
  }

  /** The search body carries exactly the paging parameters and the query. */
  lemma SearchPayloadFields(query: string, objectType: Option<string>, start: int, length: int)
    ensures var data := SearchPayload(query, objectType, start, length);
      Keys(data) == ["searchParams", "data"]
      && Get(data, "data") == JStr(SearchQuery(query, objectType))
      && Get(data, "searchParams") == JObj([Field("start", JNum(start)), Field("size", JNum(length))])
  {
    var data := SearchPayload(query, objectType, start, length);
    assert data[1..][0].key == "data";
  }

  /** The item URL extends the data endpoint by "<type>/<id>", so it lies under
      ".../api/data/". */
  lemma {:induction false} ItemUrlUnderDataEndpoint(base: string, objectType: string, id: string)
    requires base != []
    ensures var url := ItemUrl(base, objectType, id);
      |DataUrl(base)| <= |url| && url[..|DataUrl(base)|] == DataUrl(base)
      && url[|DataUrl(base)|..] == objectType + "/" + id
  {
    var d := DataUrl(base);
    var url := d + objectType + "/" + id;
    assert url == d + (objectType + "/" + id);
  }

  /** The search and data endpoints of the same base never coincide. */
  lemma {:induction false} SearchAndDataUrlsDiffer(base: string)
    requires base != []
    ensures SearchUrl(base) != DataUrl(base)
  {
    var b := ApiBase(base);
    var s, d := SearchUrl(base), DataUrl(base);
    assert s[|b|] == 's' && d[|b|] == 'd';
  }
}
