/** The portal's `Configuration` row: the endpoints of the services it talks
    to, with their defaults, and the `save` rule that keeps the table to a
    single row. */
module Configurations {
  import opened Outcomes
  import ApiUrls

  /** The text fields of a `Configuration`. */
  datatype Settings = Settings(
    xdsApi: string,
    xmsApi: string,
    ldssApi: string,
    elrrApi: string,
    eccrApi: string,
    lrsEndpoint: string,
    lrsUsername: string,
    lrsPassword: string,
    lrsPlatform: string)

  const SingletonError: string := "There can only be one Configuration instance"

  /** `Configuration()` with every field left at its default: the five
      endpoints point at local services and the LRS fields are blank. */
  function Defaults(): (d: Settings)
    ensures d.elrrApi == d.eccrApi
    ensures d.lrsEndpoint == d.lrsUsername == d.lrsPassword == d.lrsPlatform == ""
  {
    Settings(
      "http://localhost:8100/",
      "http://localhost:8000/",
      "http://localhost:8010/",
      "http://localhost:9200/",
      "http://localhost:9200/",
      "", "", "", "")
  }

  /** The default ELRR and ECCR endpoints already end in a slash, so the URL
      builders only add "api/" to them. */
  lemma DefaultsNormalise()
    ensures ApiUrls.ApiBase(Defaults().elrrApi) == "http://localhost:9200/api/"
    ensures ApiUrls.ApiBase(Defaults().eccrApi) == "http://localhost:9200/api/"
  {
    ApiUrls.ApiBaseMinimal(Defaults().elrrApi);
  }

  /** `Configuration.save` as written. `pk` is the instance's primary key, 0
      when it has none; `newPk` is the key the database hands out on insert.
      An instance without a key is refused while any row exists; an instance
      with a key is written under that key, which inserts a row when no row
      has it. */
  function SaveAsWritten(rows: map<nat, Settings>, pk: nat, newPk: nat, s: Settings): (r: (Result<nat>, map<nat, Settings>))
    requires newPk > 0 && newPk !in rows
    ensures r.0.Err? <==> pk == 0 && rows != map[]
    ensures r.0.Err? ==> r.0.error == ValidationError(SingletonError) && r.1 == rows
    ensures r.0.Ok? ==> r.0.value in r.1 && r.1[r.0.value] == s && r.1.Keys == rows.Keys + {r.0.value}
  {
    if pk == 0 && rows != map[] then (Err(ValidationError(SingletonError)), rows)
    else if pk == 0 then (Ok(newPk), rows[newPk := s])
    else (Ok(pk), rows[pk := s])
  }

  /** An instance built with an explicit key that no row has gets past the
      guard and becomes a second row. */
  lemma ExplicitKeyAddsSecondRow()
    ensures var r := SaveAsWritten(map[1 := Defaults()], 2, 3, Defaults());
      r.0 == Ok(2) && |r.1| == 2
  {
    var r := SaveAsWritten(map[1 := Defaults()], 2, 3, Defaults());
    assert r.1.Keys == {1, 2};
  }

  /** The rule the guard is there for: only the existing row may be saved
      again; any other save while a row exists is refused. */
  function Saved(rows: map<nat, Settings>, pk: nat, newPk: nat, s: Settings): (r: (Result<nat>, map<nat, Settings>))
    requires newPk > 0 && newPk !in rows
    ensures r.0.Err? <==> pk !in rows && rows != map[]
    ensures r.0.Err? ==> r.0.error == ValidationError(SingletonError) && r.1 == rows
    ensures r.0.Ok? ==> r.0.value in r.1 && r.1[r.0.value] == s && r.1.Keys == rows.Keys + {r.0.value}
  {
    if pk !in rows && rows != map[] then (Err(ValidationError(SingletonError)), rows)
    else if pk == 0 then (Ok(newPk), rows[newPk := s])
    else (Ok(pk), rows[pk := s])
  }

  /** The corrected rule agrees with the code on every save but the one the
      guard misses: a new instance carrying a key of its own. */
  lemma SavedAgreesExceptExplicitKey(rows: map<nat, Settings>, pk: nat, newPk: nat, s: Settings)
    requires newPk > 0 && newPk !in rows && 0 !in rows
    requires pk == 0 || pk in rows || rows == map[]
    ensures Saved(rows, pk, newPk, s) == SaveAsWritten(rows, pk, newPk, s)
  {
  }

  /** A table of at most one row keeps at most one row, whatever is saved;
      a refused save leaves the count at one. */
  lemma {:induction false} SavedKeepsOneRow(rows: map<nat, Settings>, pk: nat, newPk: nat, s: Settings)
    requires newPk > 0 && newPk !in rows
    requires |rows| <= 1 && 0 !in rows
    ensures |Saved(rows, pk, newPk, s).1| <= 1
    ensures rows != map[] ==> |Saved(rows, pk, newPk, s).1| == 1
  {
    var r := Saved(rows, pk, newPk, s);
    if r.0.Ok? {
      if rows == map[] {
        assert r.1.Keys == {r.0.value};
      } else {
        assert pk in rows;
        assert r.1.Keys == rows.Keys;
      }
    }
  }

  /** The `Configuration` table. */
  class ConfigurationTable {
    var rows: map<nat, Settings>

    /** Primary keys are positive. */
    ghost predicate Valid()
      reads this
    {
      0 !in rows
    }

    /** The singleton the guard is there to keep. */
    ghost predicate Single()
      reads this
    {
      |rows| <= 1
    }

    constructor ()
      ensures rows == map[] && Valid() && Single()
    {
      rows := map[];
    }

    /** `Configuration.objects.exists()` */
    function Exists(): (b: bool)
      reads this
      ensures b <==> |rows| > 0
    {
      rows != map[]
    }

    /** `configuration.save()` with the guard as written. The table stays a
        singleton on every save but one of a new instance carrying a key of
        its own. */
    method Save(pk: nat, newPk: nat, s: Settings) returns (r: Result<nat>)
      requires newPk > 0 && newPk !in rows
      requires Valid()
      modifies this
      ensures (r, rows) == SaveAsWritten(old(rows), pk, newPk, s)
      ensures Valid()
      ensures old(Single()) && (pk == 0 || pk in old(rows) || old(rows) == map[]) ==> Single()
    {
      if pk == 0 && Exists() {
        return Err(ValidationError(SingletonError));
      }
      if pk == 0 {
        rows := rows[newPk := s];
        r := Ok(newPk);
      } else {
        rows := rows[pk := s];
        r := Ok(pk);
      }
      if |old(rows)| <= 1 && (pk == 0 || pk in old(rows) || old(rows) == map[]) {
        SavedAgreesExceptExplicitKey(old(rows), pk, newPk, s);
        SavedKeepsOneRow(old(rows), pk, newPk, s);
      }
    }
  }
}
