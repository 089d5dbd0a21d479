/** The string step of `get_ip_address`: the domain handed to the resolver is the target
    with every `https://`, then every `http://` removed, cut at the first `/`. The lookup
    itself and its "Not found" fallback are not modelled. */
module AddressResolver {
  import opened Text

  /** `domain.replace('https://', '').replace('http://', '').split('/')[0]` */
  function CleanDomain(domain: string): (r: string)
    ensures '/' !in r
    ensures |r| <= |domain|
  {
    BeforeFirst(RemoveAll(RemoveAll(domain, "https://"), "http://"), '/')
  }

  /** A slash-free host comes back unchanged, with either scheme in front or with none. */
  lemma CleanDomainStripsScheme(d: string)
    requires '/' !in d
    ensures CleanDomain("https://" + d) == d
    ensures CleanDomain("http://" + d) == d
    ensures CleanDomain(d) == d
  {
    RemoveAllAbsent(d, "https://", '/');
    RemoveAllAbsent(d, "http://", '/');
    RemoveAllPrefix("https://", d);
    RemoveAllPrefix("http://", d);
    forall j | 0 <= j < |"http://"| ensures !StartsWith(("http://" + d)[j..], "https://") {
      if j == 0 {
        assert ("http://" + d)[4] == ':';
      } else {
        assert ("http://" + d)[j..][0] == "http://"[j];
      }
    }
    RemoveAllKeep("http://", d, "https://");
  }

  /** The cleaned domain of a slash-free domain is the domain itself, so cleaning twice is
      cleaning once. */
  lemma CleanDomainIdempotent(domain: string)
    ensures CleanDomain(CleanDomain(domain)) == CleanDomain(domain)
  {
    CleanDomainStripsScheme(CleanDomain(domain));
  }

  /** No `pat` whose text before its first `:` holds no `/` can start inside a host that has
      neither `:` nor `/` and is followed by a `/`; the host is kept. */
  lemma KeepHost(h: string, rest: string, pat: string, colon: nat)
    requires '/' !in h && ':' !in h && |rest| > 0 && rest[0] == '/'
    requires colon < |pat| && pat[colon] == ':' && '/' !in pat[..colon]
    ensures RemoveAll(h + rest, pat) == h + RemoveAll(rest, pat)
  {
    forall j | 0 <= j < |h| ensures !StartsWith((h + rest)[j..], pat) {
      var w := (h + rest)[j..];
      if j + colon < |h| {
        assert w[colon] == h[j + colon];
        NotStartsWithAt(w, pat, colon);
      } else {
        var k := |h| - j;
        assert w[k] == '/';
        assert pat[k] != '/' by {
          if k < colon { assert pat[..colon][k] == pat[k]; }
        }
        NotStartsWithAt(w, pat, k);
      }
    }
    RemoveAllKeep(h, rest, pat);
  }

  /** Removing a pattern that does not begin with `/` keeps a leading `/`. */
  lemma SlashStays(x: string, pat: string)
    requires |x| > 0 && x[0] == '/' && |pat| > 0 && pat[0] != '/'
    ensures |RemoveAll(x, pat)| > 0 && RemoveAll(x, pat)[0] == '/'
  {
  }

  /** Both scheme patterns have their `:` after a stretch without `/`. */
  lemma SchemeShapes()
    ensures "https://"[5] == ':' && '/' !in "https://"[..5] && "https://"[0] != '/'
    ensures "http://"[4] == ':' && '/' !in "http://"[..4] && "http://"[0] != '/'
  {
  }

  /** A host without `/` or `:` followed by anything that starts with `/` is cleaned to
      the host. */
  lemma CleanHostThenSlash(h: string, x: string)
    requires '/' !in h && ':' !in h && |x| > 0 && x[0] == '/'
    ensures CleanDomain(h + x) == h
  {
    SchemeShapes();
    var x1 := RemoveAll(x, "https://");
    SlashStays(x, "https://");
    KeepHost(h, x, "https://", 5);
    var x2 := RemoveAll(x1, "http://");
    SlashStays(x1, "http://");
    KeepHost(h, x1, "http://", 4);
    BeforeFirstAt(h, x2, '/');
  }

  /** Everything from the first `/` after the host on is dropped: a host without `/` or `:`
      followed by any path is cleaned to the host, with no scheme, ... */
  lemma CleanDomainDropsPath(h: string, path: string)
    requires '/' !in h && ':' !in h
    ensures CleanDomain(h + "/" + path) == h
  {
    assert h + "/" + path == h + ("/" + path);
    CleanHostThenSlash(h, "/" + path);
  }

  /** ... with `https://` in front, ... */
  lemma CleanDomainDropsPathHttps(h: string, path: string)
    requires '/' !in h && ':' !in h
    ensures CleanDomain("https://" + h + "/" + path) == h
  {
    RemoveAllPrefix("https://", h + "/" + path);
    assert "https://" + h + "/" + path == "https://" + (h + "/" + path);
    CleanDomainDropsPath(h, path);
  }

  /** ... and with `http://` in front, whose own text is never taken for `https://`. */
  lemma CleanDomainDropsPathHttp(h: string, path: string)
    requires '/' !in h && ':' !in h
    ensures CleanDomain("http://" + h + "/" + path) == h
  {
    var x := "/" + path;
    var v := h + x;
    var s := "http://" + v;
    assert "http://" + h + "/" + path == s;
    forall j | 0 <= j < |"http://"| ensures !StartsWith(s[j..], "https://") {
      if j == 0 {
        NotStartsWithAt(s[j..], "https://", 4);
      } else {
        NotStartsWithAt(s[j..], "https://", 0);
      }
    }
    RemoveAllKeep("http://", v, "https://");
    SchemeShapes();
    var x1 := RemoveAll(x, "https://");
    SlashStays(x, "https://");
    KeepHost(h, x, "https://", 5);
    RemoveAllPrefix("http://", h + x1);
    var x2 := RemoveAll(x1, "http://");
    SlashStays(x1, "http://");
    KeepHost(h, x1, "http://", 4);
    BeforeFirstAt(h, x2, '/');
  }
}
