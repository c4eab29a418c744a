/** The AMDA data provider's bookkeeping: the mapping from the documented data type
    names to the parser's value types, and the progress of the network requests issued for
    each acquisition. Acquisition identifiers (QUuid) and requests (shared pointers to
    QNetworkRequest, compared by identity) are opaque types with equality. */
module AmdaProvider {
  import opened Wrappers

  /** AmdaResultParser::ValueType. */
  datatype ValueType = Scalar | Vector | Unknown

  /** valueType: "scalar" and "vector" name their value types, anything else is unknown. */
  function ValueTypeOf(valueType: string): (t: ValueType)
    ensures t == Scalar <==> valueType == "scalar"
    ensures t == Vector <==> valueType == "vector"
    ensures t == Unknown <==> valueType != "scalar" && valueType != "vector"
  {
    if valueType == "scalar" then Scalar
    else if valueType == "vector" then Vector
    else Unknown
  }

  // ===========================================================================
  // Progress aggregation
  // ===========================================================================

  /** The sum of the progress values of `m` over `keys`. */
  ghost function SumOver<K>(m: map<K, real>, keys: set<K>): real
    requires keys <= m.Keys
    decreases keys
  {
    if keys == {} then 0.0
    else
      var k :| k in keys;
      m[k] + SumOver(m, keys - {k})
  }

  /** The sum does not depend on which element is taken out first. */
  lemma {:induction false} SumOverRemove<K>(m: map<K, real>, keys: set<K>, k: K)
    requires keys <= m.Keys && k in keys
    ensures SumOver(m, keys) == m[k] + SumOver(m, keys - {k})
    decreases keys
  {
    var j :| j in keys && SumOver(m, keys) == m[j] + SumOver(m, keys - {j});
    if j != k {
      SumOverRemove(m, keys - {j}, k);
      SumOverRemove(m, keys - {k}, j);
      assert keys - {j} - {k} == keys - {k} - {j};
    }
  }

  /** The progress reported for an acquisition: the mean of its requests' progress, or 0
      when it has no request. */
  ghost function MeanProgress<K>(requestProgressMap: map<K, real>): real {
    if |requestProgressMap| > 0
    then SumOver(requestProgressMap, requestProgressMap.Keys) / (|requestProgressMap| as real)
    else 0.0
  }

  /** `n` copies of `v` added up; it keeps the induction over the key set linear. */
  function Times(n: nat, v: real): real {
    if n == 0 then 0.0 else v + Times(n - 1, v)
  }

  lemma {:induction false} TimesIsProduct(n: nat, v: real)
    ensures Times(n, v) == (n as real) * v
  {
    if n > 0 {
      TimesIsProduct(n - 1, v);
    }
  }

  /** The sum of values within [lo, hi] lies between `|keys|` copies of `lo` and `|keys|`
      copies of `hi`. */
  lemma {:induction false} SumOverBounds<K>(m: map<K, real>, keys: set<K>, lo: real, hi: real)
    requires keys <= m.Keys
    requires forall k :: k in keys ==> lo <= m[k] <= hi
    ensures Times(|keys|, lo) <= SumOver(m, keys) <= Times(|keys|, hi)
    decreases keys
  {
    if keys != {} {
      var k :| k in keys;
      var rest := keys - {k};
      SumOverRemove(m, keys, k);
      SumOverBounds(m, rest, lo, hi);
      assert |rest| == |keys| - 1;
    }
  }

  /** Dividing by a positive count keeps a value between `n * lo` and `n * hi` between
      `lo` and `hi`. */
  lemma DivideWithin(s: real, n: real, lo: real, hi: real)
    requires n > 0.0 && n * lo <= s <= n * hi
    ensures lo <= s / n <= hi
  {
    var q := s / n;
    assert q * n == s;
    if q < lo {
      MultiplyStrict(q, lo, n);
    }
    if q > hi {
      MultiplyStrict(hi, q, n);
    }
  }

  lemma MultiplyStrict(a: real, b: real, n: real)
    requires n > 0.0 && a < b
    ensures a * n < b * n
  {
    assert b * n - a * n == (b - a) * n;
  }

  /** The mean lies between the smallest and the largest progress value it averages. */
  lemma MeanProgressWithin<K>(requestProgressMap: map<K, real>, lo: real, hi: real)
    requires |requestProgressMap| > 0
    requires forall k :: k in requestProgressMap ==> lo <= requestProgressMap[k] <= hi
    ensures lo <= MeanProgress(requestProgressMap) <= hi
  {
    var m := requestProgressMap;
    SumOverBounds(m, m.Keys, lo, hi);
    assert |m.Keys| == |m|;
    TimesIsProduct(|m|, lo);
    TimesIsProduct(|m|, hi);
    DivideWithin(SumOver(m, m.Keys), |m| as real, lo, hi);
  }

  /** The aggregation loop of onReplyDownloadProgress over one acquisition's requests. */
  method AggregateProgress<K>(requestProgressMap: map<K, real>) returns (finalProgress: real)
    ensures finalProgress == MeanProgress(requestProgressMap)
  {
    finalProgress := 0.0;
    var fraq := |requestProgressMap|;
    var remaining := requestProgressMap.Keys;
    while remaining != {}
      invariant remaining <= requestProgressMap.Keys
      invariant finalProgress + SumOver(requestProgressMap, remaining)
                == SumOver(requestProgressMap, requestProgressMap.Keys)
      decreases remaining
    {
      var request :| request in remaining;
      SumOverRemove(requestProgressMap, remaining, request);
      finalProgress := finalProgress + requestProgressMap[request];
      remaining := remaining - {request};
    }
    if fraq > 0 {
      finalProgress := finalProgress / (fraq as real);
    }
  }

  // ===========================================================================
  // The request progress map
  // ===========================================================================

  /** The progress map after recording `progress` for `request` of `acqIdentifier`: an
      existing value is overwritten, a new request is added to its acquisition, and an
      unknown acquisition gets a map holding just this request. Nothing else changes. */
  function WithRequestProgress<A, R>(acqMap: map<A, map<R, real>>, acqIdentifier: A,
                                     request: R, progress: real)
    : (r: map<A, map<R, real>>)
    ensures r.Keys == acqMap.Keys + {acqIdentifier}
    ensures acqIdentifier in r && request in r[acqIdentifier]
            && r[acqIdentifier][request] == progress
    ensures forall a :: a in acqMap && a != acqIdentifier ==> r[a] == acqMap[a]
    ensures acqIdentifier in acqMap && request in acqMap[acqIdentifier] ==>
      r[acqIdentifier].Keys == acqMap[acqIdentifier].Keys
    ensures acqIdentifier in acqMap && request !in acqMap[acqIdentifier] ==>
      r[acqIdentifier].Keys == acqMap[acqIdentifier].Keys + {request}
      && |r[acqIdentifier]| == |acqMap[acqIdentifier]| + 1
    ensures acqIdentifier in acqMap ==>
      forall q :: q in acqMap[acqIdentifier] && q != request ==>
        r[acqIdentifier][q] == acqMap[acqIdentifier][q]
    ensures acqIdentifier !in acqMap ==> r[acqIdentifier] == map[request := progress]
  {
    if acqIdentifier in acqMap then
      acqMap[acqIdentifier := acqMap[acqIdentifier][request := progress]]
    else
      acqMap[acqIdentifier := map[request := progress]]
  }

  /** AmdaProvider, reduced to its request progress bookkeeping. */
  class AmdaProvider<AcqId(==), Request(==)> {
    var acqIdToRequestProgressMap: map<AcqId, map<Request, real>>

    constructor ()
      ensures acqIdToRequestProgressMap == map[]
    {
      acqIdToRequestProgressMap := map[];
    }

    method UpdateRequestProgress(acqIdentifier: AcqId, request: Request, progress: real)
      modifies this
      ensures acqIdToRequestProgressMap
              == WithRequestProgress(old(acqIdToRequestProgressMap), acqIdentifier, request, progress)
    {
      if acqIdentifier in acqIdToRequestProgressMap {
        // One map update covers both the overwrite of a found request and the insertion
        // of a new one.
        var requestProgressMap := acqIdToRequestProgressMap[acqIdentifier][request := progress];
        acqIdToRequestProgressMap := acqIdToRequestProgressMap[acqIdentifier := requestProgressMap];
      } else {
        var requestProgressMap := map[request := progress];
        acqIdToRequestProgressMap := acqIdToRequestProgressMap[acqIdentifier := requestProgressMap];
      }
    }

    /** A progress report for one request: the value is stored only when the acquisition
        and the request are both known; the progress emitted for the acquisition is the
        mean over its requests, or 0 when the acquisition is unknown. */
    method OnReplyDownloadProgress(acqIdentifier: AcqId, networkRequest: Request, progress: real)
      returns (emitted: real)
      modifies this
      ensures acqIdentifier in old(acqIdToRequestProgressMap)
              && networkRequest in old(acqIdToRequestProgressMap)[acqIdentifier] ==>
        acqIdToRequestProgressMap
        == old(acqIdToRequestProgressMap)[acqIdentifier :=
             old(acqIdToRequestProgressMap)[acqIdentifier][networkRequest := progress]]
      ensures !(acqIdentifier in old(acqIdToRequestProgressMap)
                && networkRequest in old(acqIdToRequestProgressMap)[acqIdentifier]) ==>
        acqIdToRequestProgressMap == old(acqIdToRequestProgressMap)
      ensures emitted == if acqIdentifier in acqIdToRequestProgressMap
                         then MeanProgress(acqIdToRequestProgressMap[acqIdentifier])
                         else 0.0
    {
      if acqIdentifier in acqIdToRequestProgressMap {
        var requestProgressMap := acqIdToRequestProgressMap[acqIdentifier];
        if networkRequest in requestProgressMap {
          acqIdToRequestProgressMap := acqIdToRequestProgressMap[acqIdentifier :=
                                         requestProgressMap[networkRequest := progress]];
        }
      }
      if acqIdentifier in acqIdToRequestProgressMap {
        emitted := AggregateProgress(acqIdToRequestProgressMap[acqIdentifier]);
      } else {
        emitted := 0.0;
      }
    }

    /** The bookkeeping part of retrieveData: without a product id nothing is recorded;
        otherwise the first request of the acquisition is recorded with progress 0.
        `request` stands for the request object retrieveData creates. */
    method RetrieveData(token: AcqId, productId: Option<string>, request: Request)
      modifies this
      ensures productId.None? ==> acqIdToRequestProgressMap == old(acqIdToRequestProgressMap)
      ensures productId.Some? ==>
        acqIdToRequestProgressMap
        == WithRequestProgress(old(acqIdToRequestProgressMap), token, request, 0.0)
    {
      if productId.None? {
        return;
      }
      UpdateRequestProgress(token, request, 0.0);
    }
  }
}
