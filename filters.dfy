/** The filter GET /policies hands to the store: one `filter` object reassigned
    once per recognised query key, so the last key present wins. */
module Filters {
  import opened JsValues

  /** `req.query`: a key that is absent (or `undefined`) is not present. */
  type Query = map<string, JValue>

  /** An exact-match filter: field name to required value. */
  type Filter = map<string, JValue>

  /** The recognised query keys, in the order the handler tests them. */
  const FilterKeys: seq<string> :=
    ["policyNumber", "policyProvider", "policyType", "startDate", "endDate", "premium", "paymentDate"]

  /** `req.query[k] !== undefined` */
  predicate Defined(q: Query, k: string)
  {
    k in q && q[k] != JMissing
  }

  /** The last of `keys` that is defined in `q`. */
  function LastDefined(q: Query, keys: seq<string>): (r: Option<string>)
    ensures r.Some? ==> r.value in keys && Defined(q, r.value)
  {
    if keys == [] then None
    else if Defined(q, keys[|keys| - 1]) then Some(keys[|keys| - 1])
    else LastDefined(q, keys[..|keys| - 1])
  }

  /** The filter the handler builds: empty, or the last defined recognised key
      with its query value. It only ever filters on a recognised key present in the
      query, by the value given there. */
  function ListFilter(q: Query): (r: Filter)
    ensures forall k :: k in r ==> k in FilterKeys && Defined(q, k) && r[k] == q[k]
  {
    match LastDefined(q, FilterKeys)
    case None => map[]
    case Some(k) => map[k := q[k]]
  }

  /** GET /policies building its filter: `let filter = {}` and then one
      conditional reassignment per recognised key, in order. */
  method BuildFilter(q: Query) returns (filter: Filter)
    ensures filter == ListFilter(q)
  {
    filter := map[];
    if Defined(q, "policyNumber") {
      filter := map["policyNumber" := q["policyNumber"]];
    }
    if Defined(q, "policyProvider") {
      filter := map["policyProvider" := q["policyProvider"]];
    }
    if Defined(q, "policyType") {
      filter := map["policyType" := q["policyType"]];
    }
    if Defined(q, "startDate") {
      filter := map["startDate" := q["startDate"]];
    }
    if Defined(q, "endDate") {
      filter := map["endDate" := q["endDate"]];
    }
    if Defined(q, "premium") {
      filter := map["premium" := q["premium"]];
    }
    if Defined(q, "paymentDate") {
      filter := map["paymentDate" := q["paymentDate"]];
    }
    LastDefinedUnrolled(q);
  }

  /** `LastDefined` over the recognised keys, spelled out from the last key back. */
  lemma LastDefinedUnrolled(q: Query)
    ensures LastDefined(q, FilterKeys) ==
      if Defined(q, "paymentDate") then Some("paymentDate")
      else if Defined(q, "premium") then Some("premium")
      else if Defined(q, "endDate") then Some("endDate")
      else if Defined(q, "startDate") then Some("startDate")
      else if Defined(q, "policyType") then Some("policyType")
      else if Defined(q, "policyProvider") then Some("policyProvider")
      else if Defined(q, "policyNumber") then Some("policyNumber")
      else None
  {
    var k := FilterKeys;
    assert k[..6] == ["policyNumber", "policyProvider", "policyType", "startDate", "endDate", "premium"];
    assert k[..5] == k[..6][..5] == ["policyNumber", "policyProvider", "policyType", "startDate", "endDate"];
    assert k[..4] == k[..5][..4] == ["policyNumber", "policyProvider", "policyType", "startDate"];
    assert k[..3] == k[..4][..3] == ["policyNumber", "policyProvider", "policyType"];
    assert k[..2] == k[..3][..2] == ["policyNumber", "policyProvider"];
    assert k[..1] == k[..2][..1] == ["policyNumber"];
    assert k[..1][..0] == [];
    assert LastDefined(q, k[..1]) == if Defined(q, "policyNumber") then Some("policyNumber") else None;
    assert LastDefined(q, k[..2]) == if Defined(q, "policyProvider") then Some("policyProvider") else LastDefined(q, k[..1]);
    assert LastDefined(q, k[..3]) == if Defined(q, "policyType") then Some("policyType") else LastDefined(q, k[..2]);
    assert LastDefined(q, k[..4]) == if Defined(q, "startDate") then Some("startDate") else LastDefined(q, k[..3]);
    assert LastDefined(q, k[..5]) == if Defined(q, "endDate") then Some("endDate") else LastDefined(q, k[..4]);
    assert LastDefined(q, k[..6]) == if Defined(q, "premium") then Some("premium") else LastDefined(q, k[..5]);
  }

  /** The keys are distinct. */
  predicate Distinct(keys: seq<string>)
  {
    forall i, j :: 0 <= i < j < |keys| ==> keys[i] != keys[j]
  }

  /** No key defined: `LastDefined` is None exactly when none of `keys` is defined. */
  lemma {:induction false} LastDefinedNone(q: Query, keys: seq<string>)
    ensures LastDefined(q, keys).None? <==> forall i :: 0 <= i < |keys| ==> !Defined(q, keys[i])
  {
    if keys != [] {
      var init := keys[..|keys| - 1];
      LastDefinedNone(q, init);
      assert forall i :: 0 <= i < |init| ==> init[i] == keys[i];
    }
  }

  /** Last one wins: over distinct keys, `LastDefined` picks key `i` exactly when it
      is defined and no later key is. */
  lemma {:induction false} LastDefinedPicks(q: Query, keys: seq<string>, i: nat)
    requires Distinct(keys) && i < |keys|
    ensures LastDefined(q, keys) == Some(keys[i])
        <==> Defined(q, keys[i]) && forall j :: i < j < |keys| ==> !Defined(q, keys[j])
  {
    var n := |keys| - 1;
    var init := keys[..n];
    if i < n {
      assert Distinct(init);
      LastDefinedPicks(q, init, i);
      assert keys[n] != keys[i];
      assert init[i] == keys[i];
      if LastDefined(q, keys) == Some(keys[i]) {
        assert !Defined(q, keys[n]);
        forall j | i < j < |keys|
          ensures !Defined(q, keys[j])
        {
          if j < n {
            assert init[j] == keys[j];
          }
        }
      }
      if Defined(q, keys[i]) && forall j :: i < j < |keys| ==> !Defined(q, keys[j]) {
        assert !Defined(q, keys[n]);
        forall j | i < j < |init|
          ensures !Defined(q, init[j])
        {
          assert init[j] == keys[j];
        }
      }
    }
  }

  /** The recognised keys are distinct. */
  lemma FilterKeysDistinct()
    ensures Distinct(FilterKeys)
  {
  }

  /** The filter has at most one field; it is empty exactly when no recognised key
      is present in the query. */
  lemma FilterAtMostOneField(q: Query)
    ensures |ListFilter(q)| <= 1
    ensures ListFilter(q) == map[] <==> forall i :: 0 <= i < |FilterKeys| ==> !Defined(q, FilterKeys[i])
  {
    LastDefinedNone(q, FilterKeys);
    if LastDefined(q, FilterKeys).Some? {
      var k := LastDefined(q, FilterKeys).value;
      assert k in ListFilter(q);
    }
  }

  /** The filter is the one-field filter of recognised key `i`, with its query
      value, exactly when key `i` is present and no key after it in the order is. */
  lemma FilterLastKeyWins(q: Query, i: nat)
    requires i < |FilterKeys|
    ensures (FilterKeys[i] in q && ListFilter(q) == map[FilterKeys[i] := q[FilterKeys[i]]])
        <==> Defined(q, FilterKeys[i]) && forall j :: i < j < |FilterKeys| ==> !Defined(q, FilterKeys[j])
  {
    FilterKeysDistinct();
    LastDefinedPicks(q, FilterKeys, i);
    var k := FilterKeys[i];
    if k in q && ListFilter(q) == map[k := q[k]] {
      assert k in ListFilter(q);
    }
  }

  /** Keys the handler does not recognise have no effect on the filter. */
  lemma UnrecognisedKeysIgnored(q: Query, k: string, v: JValue)
    requires k !in FilterKeys
    ensures ListFilter(q[k := v]) == ListFilter(q)
  {
    LastDefinedUnrolled(q);
    LastDefinedUnrolled(q[k := v]);
  }

  /** Query parameters do not combine: with both policyNumber and paymentDate
      given, only paymentDate filters. */
  lemma LastKeyWinsExample(number: string, date: string)
    ensures ListFilter(map["policyNumber" := JStr(number), "paymentDate" := JStr(date)])
         == map["paymentDate" := JStr(date)]
  {
    LastDefinedUnrolled(map["policyNumber" := JStr(number), "paymentDate" := JStr(date)]);
  }
}
