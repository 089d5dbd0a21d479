/** The summary block of `save_report`: how many results were checked, and how many have
    a status containing "ONLINE", "OFFLINE" or "ERROR". The report text, the timestamp,
    the per-result details and the file write are not modelled. */
module Report {
  import opened Text
  import opened Prober
  import opened BatchRunner

  /** `len([r for r in results if needle in r['status']])` */
  function CountContaining<T>(results: seq<Record<T>>, needle: string): (n: nat)
    ensures n <= |results|
    ensures n == 0 <==> forall i :: 0 <= i < |results| ==> !Contains(results[i].status, needle)
    ensures n == |results| <==> forall i :: 0 <= i < |results| ==> Contains(results[i].status, needle)
  {
    if |results| == 0 then 0
    else (if Contains(results[0].status, needle) then 1 else 0) + CountContaining(results[1..], needle)
  }

  /** The number of results whose status is exactly the label of `c`. */
  function CountCategory<T>(results: seq<Record<T>>, c: Category): (n: nat)
    ensures n <= |results|
    ensures n == 0 <==> forall i :: 0 <= i < |results| ==> results[i].status != Label(c)
  {
    if |results| == 0 then 0
    else (if results[0].status == Label(c) then 1 else 0) + CountCategory(results[1..], c)
  }

  /** The four figures of the summary block. */
  datatype Summary = Summary(checked: nat, online: nat, offline: nat, errors: nat)

  function Summarize<T>(results: seq<Record<T>>): (s: Summary)
    ensures s.checked == |results|
    ensures s.online <= s.checked && s.offline <= s.checked && s.errors <= s.checked
  {
    Summary(|results|, CountContaining(results, "ONLINE"), CountContaining(results, "OFFLINE"),
            CountContaining(results, "ERROR"))
  }

  lemma OnlineSubstrings()
    ensures Contains("🟢 ONLINE", "ONLINE")
    ensures !Contains("🟢 ONLINE", "OFFLINE")
    ensures !Contains("🟢 ONLINE", "ERROR")
  {
  }

  lemma RedirectSubstrings()
    ensures !Contains("🟡 REDIRECT", "ONLINE")
    ensures !Contains("🟡 REDIRECT", "OFFLINE")
    ensures !Contains("🟡 REDIRECT", "ERROR")
  {
  }

  lemma ClientErrorMisses()
    ensures !Contains("🔴 CLIENT ERROR", "ONLINE")
    ensures !Contains("🔴 CLIENT ERROR", "OFFLINE")
  {
    assert "🔴 CLIENT ERROR"[0..9] == "🔴 CLIENT ";
    LeadAbsent("🔴 CLIENT ERROR", "ONLINE", 0);
    assert "🔴 CLIENT ERROR"[0..8] == "🔴 CLIENT";
    LeadAbsent("🔴 CLIENT ERROR", "OFFLINE", 0);
  }

  lemma ClientErrorSubstrings()
    ensures !Contains("🔴 CLIENT ERROR", "ONLINE")
    ensures !Contains("🔴 CLIENT ERROR", "OFFLINE")
    ensures Contains("🔴 CLIENT ERROR", "ERROR")
  {
    ClientErrorMisses();
    assert StartsWith("🔴 CLIENT ERROR"[9..], "ERROR");
    ContainsIff("🔴 CLIENT ERROR", "ERROR");
  }

  lemma ServerErrorMisses()
    ensures !Contains("🔴 SERVER ERROR", "ONLINE")
    ensures !Contains("🔴 SERVER ERROR", "OFFLINE")
  {
    assert "🔴 SERVER ERROR"[0..9] == "🔴 SERVER ";
    LeadAbsent("🔴 SERVER ERROR", "ONLINE", 0);
    assert "🔴 SERVER ERROR"[0..8] == "🔴 SERVER";
    LeadAbsent("🔴 SERVER ERROR", "OFFLINE", 0);
  }

  lemma ServerErrorSubstrings()
    ensures !Contains("🔴 SERVER ERROR", "ONLINE")
    ensures !Contains("🔴 SERVER ERROR", "OFFLINE")
    ensures Contains("🔴 SERVER ERROR", "ERROR")
  {
    ServerErrorMisses();
    assert StartsWith("🔴 SERVER ERROR"[9..], "ERROR");
    ContainsIff("🔴 SERVER ERROR", "ERROR");
  }

  lemma OfflineSubstrings()
    ensures !Contains("🔴 OFFLINE", "ONLINE")
    ensures Contains("🔴 OFFLINE", "OFFLINE")
    ensures !Contains("🔴 OFFLINE", "ERROR")
  {
  }

  /** Which of the three substring tests each of the five labels passes: "ONLINE" only
      ONLINE, "OFFLINE" only OFFLINE, "ERROR" only CLIENT ERROR and SERVER ERROR. */
  lemma LabelSubstrings(c: Category)
    ensures Contains(Label(c), "ONLINE") <==> c == Online
    ensures Contains(Label(c), "OFFLINE") <==> c == Offline
    ensures Contains(Label(c), "ERROR") <==> c == ClientError || c == ServerError
  {
    match c
    case Online => OnlineSubstrings();
    case Redirect => RedirectSubstrings();
    case ClientError => ClientErrorSubstrings();
    case ServerError => ServerErrorSubstrings();
    case Offline => OfflineSubstrings();
  }

  /** On the five labels the three substring tests are pairwise exclusive, and a status
      passes none of them exactly when it is REDIRECT. */
  lemma BucketsDisjoint(s: string)
    requires IsLabel(s)
    ensures !(Contains(s, "ONLINE") && Contains(s, "OFFLINE"))
    ensures !(Contains(s, "ONLINE") && Contains(s, "ERROR"))
    ensures !(Contains(s, "OFFLINE") && Contains(s, "ERROR"))
    ensures !Contains(s, "ONLINE") && !Contains(s, "OFFLINE") && !Contains(s, "ERROR") <==>
      s == Label(Redirect)
  {
    var c :| Label(c) == s;
    LabelSubstrings(c);
    LabelInjective(c, Redirect);
  }

  ghost predicate AllLabelled<T>(results: seq<Record<T>>)
  {
    forall i :: 0 <= i < |results| ==> IsLabel(results[i].status)
  }

  /** When every status is one of the five labels, the Online, Offline and Errors counts
      are the counts of the matching categories, and together with the REDIRECT results
      they account for every result exactly once. */
  lemma {:induction false} SummaryPartition<T>(results: seq<Record<T>>)
    requires AllLabelled(results)
    ensures CountContaining(results, "ONLINE") == CountCategory(results, Online)
    ensures CountContaining(results, "OFFLINE") == CountCategory(results, Offline)
    ensures CountContaining(results, "ERROR") ==
      CountCategory(results, ClientError) + CountCategory(results, ServerError)
    ensures CountContaining(results, "ONLINE") + CountContaining(results, "OFFLINE") +
      CountContaining(results, "ERROR") + CountCategory(results, Redirect) == |results|
  {
    if |results| > 0 {
      assert AllLabelled(results[1..]) by {
        forall i | 0 <= i < |results[1..]| ensures IsLabel(results[1..][i].status) {
          assert results[1..][i] == results[i + 1];
        }
      }
      SummaryPartition(results[1..]);
      assert IsLabel(results[0].status);
      var c :| Label(c) == results[0].status;
      LabelSubstrings(c);
      forall d: Category ensures (results[0].status == Label(d)) <==> c == d {
        LabelInjective(c, d);
      }
    }
  }

  /** The summary never counts more results than were checked: Online + Offline + Errors
      is the total minus the REDIRECT results. */
  lemma SummaryBound<T>(results: seq<Record<T>>)
    requires AllLabelled(results)
    ensures Summarize(results).online + Summarize(results).offline + Summarize(results).errors
      == |results| - CountCategory(results, Redirect)
    ensures Summarize(results).online + Summarize(results).offline + Summarize(results).errors
      <= Summarize(results).checked
  {
    SummaryPartition(results);
  }

  /** Online + Offline equals the total exactly when every result is ONLINE or OFFLINE. */
  lemma OnlineOfflineExact<T>(results: seq<Record<T>>)
    requires AllLabelled(results)
    ensures Summarize(results).online + Summarize(results).offline <= Summarize(results).checked
    ensures Summarize(results).online + Summarize(results).offline == Summarize(results).checked
      <==> forall i :: 0 <= i < |results| ==>
             results[i].status == Label(Online) || results[i].status == Label(Offline)
  {
    SummaryPartition(results);
    forall i | 0 <= i < |results|
      ensures results[i].status == Label(Online) || results[i].status == Label(Offline) <==>
        results[i].status != Label(Redirect) && results[i].status != Label(ClientError) &&
        results[i].status != Label(ServerError)
    {
      var c :| Label(c) == results[i].status;
      forall d: Category ensures (results[i].status == Label(d)) <==> c == d {
        LabelInjective(c, d);
      }
    }
  }

  /** A batch whose four requests were answered 200, 404, 500 and with a transport
      failure: four checked, one ONLINE, one OFFLINE, two errors. */
  lemma MixedBatchSummary<T>(results: seq<Record<T>>, t: T)
    requires |results| == 4
    requires results[0].status == Classify(Response(200, t)).status
    requires results[1].status == Classify(Response(404, t)).status
    requires results[2].status == Classify(Response(500, t)).status
    requires results[3].status == Classify(Outcome<T>.TransportFailure).status
    ensures Summarize(results) == Summary(4, 1, 1, 2)
  {
    OnlineSubstrings();
    ClientErrorSubstrings();
    ServerErrorSubstrings();
    OfflineSubstrings();
    var r3 := results[3..];
    var r2 := results[2..];
    var r1 := results[1..];
    assert r3[1..] == [] && r2[1..] == r3 && r1[1..] == r2 && results[1..] == r1;
    assert CountContaining(r3, "ONLINE") == 0 && CountContaining(r3, "OFFLINE") == 1 && CountContaining(r3, "ERROR") == 0;
    assert CountContaining(r2, "ONLINE") == 0 && CountContaining(r2, "OFFLINE") == 1 && CountContaining(r2, "ERROR") == 1;
    assert CountContaining(r1, "ONLINE") == 0 && CountContaining(r1, "OFFLINE") == 1 && CountContaining(r1, "ERROR") == 2;
  }
}
