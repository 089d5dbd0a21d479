/** The batch runner of `check_multiple_websites`: probe every target once, in order,
    and collect one record per target. The progress lines and the one-second pause
    after each probe are not modelled. */
module BatchRunner {
  import opened Prober

  /** One entry of `results`: the target as given, and what its probe returned. */
  datatype Record<T> = Record(website: string, status: string, code: OrNA<int>, responseTime: OrNA<T>)

  /** The record the `i`-th probe of a run contributes for `website`. */
  ghost predicate RecordsProbe<T>(r: Record<T>, website: string, network: (nat, string) -> Outcome<T>, i: nat)
  {
    var c := CheckSingleWebsite(website, network, i);
    r.website == website && r.status == c.status && r.code == c.code && r.responseTime == c.responseTime
  }

  /** Probes `websites` one after another; the `i`-th probe is the `i`-th request of the run.
      The result has one record per target, in the targets' order (duplicates included),
      and each record holds exactly what that target's probe returned. */
  method CheckMultipleWebsites<T>(websites: seq<string>, network: (nat, string) -> Outcome<T>)
    returns (results: seq<Record<T>>)
    ensures |results| == |websites|
    ensures forall i :: 0 <= i < |websites| ==> results[i].website == websites[i]
    ensures forall i :: 0 <= i < |websites| ==> RecordsProbe(results[i], websites[i], network, i)
    ensures forall i :: 0 <= i < |results| ==> IsLabel(results[i].status)
    ensures forall i :: 0 <= i < |results| ==>
      (results[i].code.NA? <==> results[i].responseTime.NA?) &&
      (results[i].code.NA? <==> results[i].status == Label(Offline))
  {
    results := [];
    var i := 0;
    while i < |websites|
      invariant 0 <= i <= |websites|
      invariant |results| == i
      invariant forall k :: 0 <= k < i ==> RecordsProbe(results[k], websites[k], network, k)
      invariant forall k :: 0 <= k < i ==> IsLabel(results[k].status)
      invariant forall k :: 0 <= k < i ==>
        (results[k].code.NA? <==> results[k].responseTime.NA?) &&
        (results[k].code.NA? <==> results[k].status == Label(Offline))
    {
      var website := websites[i];
      var check := CheckSingleWebsite(website, network, i);
      results := results + [Record(website, check.status, check.code, check.responseTime)];
      i := i + 1;
    }
  }
}
