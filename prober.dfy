/** The single-website probe of `check_single_website`: normalise the target to an
    absolute URL, issue one GET and classify what came back.

    The GET itself is not modelled: its outcome is an input. `network(n, url)` is what
    the n-th request of a run, sent to `url`, produced, so two requests for the same URL
    may be answered differently. The elapsed time is an opaque value of type `T`. */
module Prober {
  import opened Text

  /** What `requests.get` produced: a response with its status code, or one of the
      failures `requests.exceptions.RequestException` covers. */
  datatype Outcome<T> = Response(statusCode: int, elapsed: T) | TransportFailure

  /** A field of a result that is either a value or the text "N/A". */
  datatype OrNA<T> = NA | Present(value: T)

  /** The five status categories. */
  datatype Category = Online | Redirect | ClientError | ServerError | Offline

  /** The status text the checker shows and stores for each category: a green marker for
      ONLINE, a yellow one for REDIRECT and a red one otherwise, a space, then the name. */
  function Label(c: Category): string
  {
    match c
    case Online => "🟢 ONLINE"
    case Redirect => "🟡 REDIRECT"
    case ClientError => "🔴 CLIENT ERROR"
    case ServerError => "🔴 SERVER ERROR"
    case Offline => "🔴 OFFLINE"
  }

  /** A status string is one of the five labels. */
  predicate IsLabel(s: string)
  {
    exists c: Category :: Label(c) == s
  }

  /** Distinct categories are shown with distinct labels. */
  lemma LabelInjective(c: Category, d: Category)
    ensures Label(c) == Label(d) <==> c == d
  {
  }

  /** The triple `check_single_website` returns: status, code, response time. */
  datatype Check<T> = Check(status: string, code: OrNA<int>, responseTime: OrNA<T>)

  /** The target already names a scheme: `url.startswith(('http://', 'https://'))`. */
  predicate HasScheme(url: string)
  {
    StartsWith(url, "http://") || StartsWith(url, "https://")
  }

  /** `https://` is put in front of a target that names no scheme. */
  function NormalizeUrl(url: string): (r: string)
    ensures HasScheme(r)
    ensures HasScheme(url) ==> r == url
    ensures !HasScheme(url) ==> r == "https://" + url
  {
    if HasScheme(url) then url
    else
      assert ("https://" + url)[..8] == "https://";
      "https://" + url
  }

  /** Normalising twice is normalising once. */
  lemma NormalizeIdempotent(url: string)
    ensures NormalizeUrl(NormalizeUrl(url)) == NormalizeUrl(url)
  {
  }

  /** The band of a status code: 200..299, 300..399 and 400..499 are ONLINE, REDIRECT
      and CLIENT ERROR; every other code, below 200 or at 500 and above, is SERVER ERROR. */
  function CategoryOf(statusCode: int): (c: Category)
    ensures c == Online <==> 200 <= statusCode < 300
    ensures c == Redirect <==> 300 <= statusCode < 400
    ensures c == ClientError <==> 400 <= statusCode < 500
    ensures c == ServerError <==> statusCode < 200 || 500 <= statusCode
    ensures c != Offline
  {
    if 200 <= statusCode < 300 then Online
    else if 300 <= statusCode < 400 then Redirect
    else if 400 <= statusCode < 500 then ClientError
    else ServerError
  }

  /** The boundary codes of each band. */
  lemma CategoryBoundaries()
    ensures CategoryOf(199) == ServerError && CategoryOf(200) == Online && CategoryOf(299) == Online
    ensures CategoryOf(300) == Redirect && CategoryOf(399) == Redirect
    ensures CategoryOf(400) == ClientError && CategoryOf(499) == ClientError
    ensures CategoryOf(500) == ServerError && CategoryOf(599) == ServerError
    ensures CategoryOf(600) == ServerError && CategoryOf(-1) == ServerError
  {
  }

  /** The classification of one outcome. A transport failure is OFFLINE with both code
      and time "N/A"; a response is never OFFLINE and carries its code and its time. */
  function Classify<T>(o: Outcome<T>): (r: Check<T>)
    ensures IsLabel(r.status)
    ensures r.code.NA? <==> o.TransportFailure?
    ensures r.responseTime.NA? <==> o.TransportFailure?
    ensures r.status == Label(Offline) <==> o.TransportFailure?
    ensures o.Response? ==>
      r.code == Present(o.statusCode) && r.responseTime == Present(o.elapsed) &&
      r.status == Label(CategoryOf(o.statusCode))
  {
    match o
    case Response(code, elapsed) =>
      LabelInjective(CategoryOf(code), Offline);
      Check(Label(CategoryOf(code)), Present(code), Present(elapsed))
    case TransportFailure =>
      Check(Label(Offline), NA, NA)
  }

  /** Code and response time are both present or both "N/A", and "N/A" goes exactly with
      the OFFLINE status. */
  lemma ClassifyJointPresence<T>(o: Outcome<T>)
    ensures Classify(o).code.NA? <==> Classify(o).responseTime.NA?
    ensures Classify(o).code.NA? <==> Classify(o).status == Label(Offline)
  {
  }

  /** `check_single_website(url)` as the `call`-th request of a run: the request goes to the
      normalised URL, and what comes back is classified. */
  function CheckSingleWebsite<T>(url: string, network: (nat, string) -> Outcome<T>, call: nat): (r: Check<T>)
    ensures !HasScheme(url) ==> r == Classify(network(call, "https://" + url))
    ensures HasScheme(url) ==> r == Classify(network(call, url))
  {
    Classify(network(call, NormalizeUrl(url)))
  }
}
