/** `confusable_homoglyphs_check`: walks a request payload and reports whether
    any string in it, at any depth of nested objects, holds dangerous homoglyphs.
    The homoglyph oracle `confusables.is_dangerous` is a parameter. */
module Homoglyphs {
  import opened JsonValues

  /** The specification: no string value reached through objects is dangerous.
      Values that are neither strings nor objects are not looked into. */
  predicate SafeValue(j: Json, dangerous: string -> bool)
    decreases j
  {
    match j
    case JStr(s) => !dangerous(s)
    case JObj(fields) => forall i :: 0 <= i < |fields| ==> SafeValue(fields[i].value, dangerous)
    case _ => true
  }

  predicate Safe(data: Dict, dangerous: string -> bool) {
    SafeValue(JObj(data), dangerous)
  }

  /** The loop over the keys of `data`, recursing into nested objects. Every key
      is visited: a dangerous value does not stop the loop. */
  method Check(data: Dict, dangerous: string -> bool) returns (dataIsSafe: bool)
    ensures dataIsSafe == Safe(data, dangerous)
    decreases JObj(data)
  {
    dataIsSafe := true;
    var i := 0;
    while i < |data|
      invariant 0 <= i <= |data|
      invariant dataIsSafe == forall k :: 0 <= k < i ==> SafeValue(data[k].value, dangerous)
    {
      var value := data[i].value;
      if value.JStr? && dangerous(value.s) {
        dataIsSafe := false;
      }
      if value.JObj? {
        assert data[i] in data;
        var retVal := Check(value.fields, dangerous);
        if !retVal {
          dataIsSafe := false;
        }
      }
      i := i + 1;
    }
  }

  /** The whole payload is safe exactly when each of its parts is. */
  lemma SafeAppend(a: Dict, b: Dict, dangerous: string -> bool)
    ensures Safe(a + b, dangerous) <==> Safe(a, dangerous) && Safe(b, dangerous)
  {
    var ab := a + b;
    assert forall i :: 0 <= i < |a| ==> ab[i] == a[i];
    assert forall i :: 0 <= i < |b| ==> ab[|a| + i] == b[i];
  }

  /** A dangerous string directly under a key makes the payload unsafe. */
  lemma TopLevelDangerous(data: Dict, i: nat, dangerous: string -> bool)
    requires i < |data| && data[i].value.JStr? && dangerous(data[i].value.s)
    ensures !Safe(data, dangerous)
  {
    assert !SafeValue(data[i].value, dangerous);
  }

  /** An unsafe nested object makes its parent unsafe, at any depth. */
  lemma NestedUnsafe(data: Dict, i: nat, dangerous: string -> bool)
    requires i < |data| && data[i].value.JObj? && !Safe(data[i].value.fields, dangerous)
    ensures !Safe(data, dangerous)
  {
    assert !SafeValue(data[i].value, dangerous);
  }

  /** Replacing a value that is neither a string nor an object by another such
      value (a list or a number, say) never changes the verdict. */
  lemma OtherValuesIgnored(data: Dict, i: nat, v: Json, dangerous: string -> bool)
    requires i < |data| && !data[i].value.JStr? && !data[i].value.JObj?
    requires !v.JStr? && !v.JObj?
    ensures Safe(data[i := Field(data[i].key, v)], dangerous) == Safe(data, dangerous)
  {
    var d := data[i := Field(data[i].key, v)];
    assert SafeValue(d[i].value, dangerous) && SafeValue(data[i].value, dangerous);
    assert forall k :: 0 <= k < |data| && k != i ==> d[k] == data[k];
  }
}
