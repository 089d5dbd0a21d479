# Website status checker — Dafny model

A model of the logic inside `website_checker.py`, a command-line tool that probes a
list of websites over HTTP(S), prints one line per site and writes a text report.
The model covers the parts that are rules rather than I/O:

- **Prober** (`prober.dfy`): `check_single_website` puts `https://` in front of a target
  that names no scheme, issues one GET, and maps the outcome to a status label:
  200–299 `🟢 ONLINE`, 300–399 `🟡 REDIRECT`, 400–499 `🔴 CLIENT ERROR`, every other
  code `🔴 SERVER ERROR`, and any `RequestException` `🔴 OFFLINE` with code and time
  both `"N/A"`. The GET is an input: `network(n, url)` is the outcome of the n-th
  request of a run for `url`. It is either `Response(statusCode, elapsed)` or
  `TransportFailure`, and the elapsed time is a value of an opaque type `T`.
- **Batch runner** (`batch.dfy`): `check_multiple_websites` is a method with a loop.
  It appends one record per target, in order, and the `i`-th record holds exactly what
  the `i`-th probe returned.
- **Address resolver** (`resolver.dfy`): the string step of `get_ip_address`. It removes
  every `https://`, then every `http://`, then keeps the text before the first `/`.
- **Report summary** (`report.dfy`): the four figures of `save_report`'s summary block.
  Online, Offline and Errors are substring tests (`'ONLINE' in status`, and so on) over
  the stored status strings.
- **Text** (`text.dfy`): the Python string operations these use. They are
  `str.startswith`, `in` on strings, `str.replace(old, '')` (a left-to-right scan that
  removes non-overlapping matches) and `str.split(sep)[0]`.

Status labels are kept as the exact strings the program stores, emoji included. The
category enum `Category` is tied to them by `Label`, and lemmas prove which substring
tests each label passes. So the counts are the program's own substring counts, and the
partition into categories is a theorem, not a definition.

Two places where the program says something other than what its code does; the model
follows the code:

- The tool's own information screen lists `🔴 SERVER ERROR (500-599)`
  (website_checker.py:226). The classification's `else` also sends codes below 200 and
  at or above 600 to SERVER ERROR (`CategoryOf`, `CategoryBoundaries`).
- The quick summary printed after a run shows only Online and Offline
  (website_checker.py:272-274). The report's summary block also counts statuses
  containing `ERROR`, which is both CLIENT ERROR and SERVER ERROR
  (website_checker.py:113; `Summarize`, `SummaryPartition`).

## Model

| member | source | states |
|---|---|---|
| `Prober.Label` | website_checker.py:55-64 | defines the five status strings exactly as the program stores them: `🟢 ONLINE`, `🟡 REDIRECT`, `🔴 CLIENT ERROR`, `🔴 SERVER ERROR`, `🔴 OFFLINE` |
| `Prober.HasScheme` | website_checker.py:44 | defines the scheme test: the target starts with `http://` or with `https://` |
| `Text.StartsWith` | website_checker.py:44 | defines `s.startswith(prefix)`: the first `len(prefix)` characters of `s` are `prefix` |
| `Text.Contains` | website_checker.py:111-113 | defines `needle in hay`: `needle` occurs in `hay` at some position |
| `Prober.NormalizeUrl` | website_checker.py:44-45 | the result always starts with `http://` or `https://`; a target that already has one of them is unchanged, any other gets `https://` in front |
| `Prober.NormalizeIdempotent` | website_checker.py:44-45 | normalising an already normalised URL changes nothing |
| `Prober.LabelInjective` | website_checker.py:54-64 | the five status labels are pairwise distinct |
| `Prober.CategoryOf` | website_checker.py:54-61 | both directions for each band: ONLINE iff 200 ≤ code < 300, REDIRECT iff 300 ≤ code < 400, CLIENT ERROR iff 400 ≤ code < 500, SERVER ERROR iff code < 200 or code ≥ 500; a status code never gives OFFLINE |
| `Prober.CategoryBoundaries` | website_checker.py:54-61 | the codes 199, 200, 299, 300, 399, 400, 499, 500, 599, 600 and -1 fall in the bands above |
| `Prober.Classify` | website_checker.py:51-64 | the status is one of the five labels; code is "N/A" iff the request failed, and so is the time; the status is OFFLINE iff the request failed; a response carries its own code, its own time and its band's label |
| `Prober.ClassifyJointPresence` | website_checker.py:51-64 | code and time are both present or both "N/A", and "N/A" goes exactly with OFFLINE |
| `Prober.CheckSingleWebsite` | website_checker.py:40-64 | a target without a scheme is requested as `"https://" + target`, and a target with one is requested as given; the result is the classification of that request's outcome |
| `BatchRunner.CheckMultipleWebsites` | website_checker.py:72-85 | one record per target in input order (empty input and duplicates included); record i names target i and holds the status, code and time of the i-th probe; every status is a label and code/time are jointly present or jointly "N/A" |
| `Text.ContainsIff` | website_checker.py:111-113 | the substring test holds iff some position of the text starts with the needle |
| `Text.RemoveAll` | website_checker.py:91 | `replace(pat, '')` never lengthens the text and introduces no new character |
| `Text.RemoveAllAbsent` | website_checker.py:91 | a pattern holding a character missing from the text leaves the text unchanged |
| `Text.RemoveAllPrefix` | website_checker.py:91 | a leading occurrence is removed and scanning resumes after it |
| `Text.RemoveAllKeep` | website_checker.py:91 | a stretch in which no occurrence starts is kept as it is |
| `Text.BeforeFirst` | website_checker.py:91 | `split(sep)[0]` is a prefix without `sep`, followed in the input by `sep` unless it is the whole input |
| `Text.BeforeFirstAt` | website_checker.py:91 | cutting `h + rest` at the first `sep`, where `h` has no `sep` and `rest` starts with one, gives `h` |
| `AddressResolver.CleanDomain` | website_checker.py:91 | the cleaned domain never contains `/` and is no longer than the input |
| `AddressResolver.CleanDomainStripsScheme` | website_checker.py:91 | for a slash-free `d`, `"https://" + d`, `"http://" + d` and `d` all clean to `d` |
| `AddressResolver.CleanDomainIdempotent` | website_checker.py:91 | cleaning an already cleaned domain changes nothing |
| `AddressResolver.CleanHostThenSlash` | website_checker.py:91 | a host without `/` or `:` followed by any text starting with `/` cleans to the host |
| `AddressResolver.CleanDomainDropsPath` | website_checker.py:91 | `host + "/" + path` cleans to `host` for a host without `/` or `:` |
| `AddressResolver.CleanDomainDropsPathHttps` | website_checker.py:91 | `"https://" + host + "/" + path` cleans to `host` |
| `AddressResolver.CleanDomainDropsPathHttp` | website_checker.py:91 | `"http://" + host + "/" + path` cleans to `host` |
| `Report.CountContaining` | website_checker.py:111-113 | the count of statuses containing a needle is at most the number of results; it is 0 iff no status contains it and equals the total iff every status does |
| `Report.CountCategory` | website_checker.py:110-113 | the number of results with exactly one category's label, at most the total, and 0 iff no result has that label |
| `Report.Summarize` | website_checker.py:110-113 | Websites Checked is the number of results; Online, Offline and Errors never exceed it |
| `Report.OnlineSubstrings` | website_checker.py:111-113 | `🟢 ONLINE` contains "ONLINE" and neither "OFFLINE" nor "ERROR" |
| `Report.RedirectSubstrings` | website_checker.py:111-113 | `🟡 REDIRECT` contains none of the three |
| `Report.ClientErrorSubstrings` | website_checker.py:111-113 | `🔴 CLIENT ERROR` contains only "ERROR" |
| `Report.ServerErrorSubstrings` | website_checker.py:111-113 | `🔴 SERVER ERROR` contains only "ERROR" |
| `Report.OfflineSubstrings` | website_checker.py:111-113 | `🔴 OFFLINE` contains only "OFFLINE" (not "ONLINE") |
| `Report.LabelSubstrings` | website_checker.py:111-113 | for every category: "ONLINE" in its label iff ONLINE, "OFFLINE" iff OFFLINE, "ERROR" iff CLIENT or SERVER ERROR |
| `Report.BucketsDisjoint` | website_checker.py:111-113 | on a label, no two of the three substring tests hold together, and none holds iff the label is REDIRECT |
| `Report.SummaryPartition` | website_checker.py:110-113 | when every status is a label: Online counts ONLINE results, Offline counts OFFLINE, Errors counts CLIENT ERROR plus SERVER ERROR, and with the REDIRECT results they add up to the total |
| `Report.SummaryBound` | website_checker.py:110-113 | Online + Offline + Errors is the total minus the REDIRECT results, so never more than the total |
| `Report.OnlineOfflineExact` | website_checker.py:110-112 | Online + Offline is at most the total, and equal to it iff every result is ONLINE or OFFLINE |
| `Report.MixedBatchSummary` | website_checker.py:110-113 | results answered 200, 404, 500 and a transport failure summarise to 4 checked, 1 online, 1 offline, 2 errors |

## Left out

- The GET request, its redirect following and its 10-second timeout (website_checker.py:48) are network I/O. Their outcome is the `network` input.
- Measuring time with `time.time()` and `round(... * 1000, 2)` (website_checker.py:47-51) is clock and floating-point work. The response time is an opaque value.
- Exceptions other than `RequestException` are not modelled. The `try` at website_checker.py:42 covers lines 43-61: the scheme test, the GET, both `time.time()` calls, `round`, reading `status_code` and the classification. Only the GET raises `RequestException`. Any other exception from these lines escapes `check_single_website` and aborts `check_multiple_websites` before the batch is finished. `main` then catches it at website_checker.py:282, reports it, and saves no report. The model has no such path: every probe yields a result.
- The network oracle is a mathematical function of the request number and the URL. The model says nothing about how answers of different requests relate.
- `socket.gethostbyname` and its `"Not found"` fallback (website_checker.py:92-95) are a DNS call. Only the cleaning on line 91 is modelled.
- `AddressResolver.CleanDomainDropsPath`, `CleanDomainDropsPathHttps` and `CleanDomainDropsPathHttp`: proved only for hosts without `:`, so a host with a port such as `example.com:8080` is not covered. A host ending in `https:` can make the code remove text across the first `/`.
- The progress printing and `time.sleep(1)` in the batch loop (website_checker.py:68-70, 76, 83) are presentation and pacing.
- The report text (header, timestamp, the per-result detail loop on lines 118-126 with its IP lookups) and the file write (website_checker.py:99-107, 115-133) are layout, clock and file I/O. Only the summary counts are modelled.
- The menu, banner, screen clearing, interactive input, tool information, the unimplemented load-from-file option, interrupt handling and the start-up import check (website_checker.py:15-38, 135-295) are user interface and process control.
- `Text.RemoveAll` requires a non-empty pattern. The program only calls `replace` with the literals `https://` and `http://`.
