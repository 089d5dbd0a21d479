/** The few Python string operations the checker relies on, over `seq<char>`:
    `str.startswith`, the substring test `needle in hay`, `str.replace(old, '')`
    and `str.split(sep)[0]`. */
module Text {

  /** `s.startswith(prefix)` */
  predicate StartsWith(s: string, prefix: string)
  {
    |prefix| <= |s| && s[..|prefix|] == prefix
  }

  /** One mismatching (or missing) character rules a prefix out. */
  lemma NotStartsWithAt(s: string, prefix: string, k: nat)
    requires k < |prefix| && (k >= |s| || s[k] != prefix[k])
    ensures !StartsWith(s, prefix)
  {
  }

  /** `needle` occurs in `hay` at position `i`, compared from character `k` on. */
  predicate MatchAt(hay: string, needle: string, i: nat, k: nat)
    requires i + |needle| <= |hay| && k <= |needle|
    decreases |needle| - k
  {
    k == |needle| || (hay[i + k] == needle[k] && MatchAt(hay, needle, i, k + 1))
  }

  /** `needle` occurs in `hay` at some position `i` or later. */
  predicate ContainsFrom(hay: string, needle: string, i: nat)
    decreases |hay| - i
  {
    i + |needle| <= |hay| && (MatchAt(hay, needle, i, 0) || ContainsFrom(hay, needle, i + 1))
  }

  /** No window from `i` on can match when none of them opens with the needle's first
      character. */
  lemma {:induction false} LeadAbsent(hay: string, needle: string, i: nat)
    requires 0 < |needle| <= |hay| && i <= |hay| - |needle| + 1
    requires needle[0] !in hay[i..|hay| - |needle| + 1]
    ensures !ContainsFrom(hay, needle, i)
    decreases |hay| - i
  {
    if i + |needle| <= |hay| {
      assert hay[i] == hay[i..|hay| - |needle| + 1][0];
      assert hay[i + 1..|hay| - |needle| + 1] == hay[i..|hay| - |needle| + 1][1..];
      LeadAbsent(hay, needle, i + 1);
    }
  }

  /** Python's `needle in hay` for two strings. */
  predicate Contains(hay: string, needle: string)
  {
    ContainsFrom(hay, needle, 0)
  }

  lemma {:induction false} MatchAtSlice(hay: string, needle: string, i: nat, k: nat)
    requires i + |needle| <= |hay| && k <= |needle|
    ensures MatchAt(hay, needle, i, k) <==> hay[i + k..i + |needle|] == needle[k..]
    decreases |needle| - k
  {
    if k < |needle| {
      MatchAtSlice(hay, needle, i, k + 1);
      assert hay[i + k..i + |needle|] == [hay[i + k]] + hay[i + k + 1..i + |needle|];
      assert needle[k..] == [needle[k]] + needle[k + 1..];
    }
  }

  lemma {:induction false} ContainsFromSlice(hay: string, needle: string, i: nat)
    ensures ContainsFrom(hay, needle, i) <==>
      exists j :: i <= j <= |hay| - |needle| && StartsWith(hay[j..], needle)
    decreases |hay| - i
  {
    if i + |needle| <= |hay| {
      MatchAtSlice(hay, needle, i, 0);
      assert MatchAt(hay, needle, i, 0) <==> StartsWith(hay[i..], needle) by {
        assert hay[i..][..|needle|] == hay[i..i + |needle|];
      }
      ContainsFromSlice(hay, needle, i + 1);
      if ContainsFrom(hay, needle, i) && !MatchAt(hay, needle, i, 0) {
        var j :| i + 1 <= j <= |hay| - |needle| && StartsWith(hay[j..], needle);
      }
    }
  }

  /** The substring test holds exactly when some window of `hay` starts with `needle`. */
  lemma ContainsIff(hay: string, needle: string)
    ensures Contains(hay, needle) <==>
      exists j :: 0 <= j <= |hay| - |needle| && StartsWith(hay[j..], needle)
  {
    ContainsFromSlice(hay, needle, 0);
  }

  /** `s.replace(pat, '')`: every occurrence of `pat` found scanning from the left,
      without overlaps, is removed. */
  function RemoveAll(s: string, pat: string): (r: string)
    requires |pat| > 0
    ensures |r| <= |s|
    ensures forall c :: c in r ==> c in s
    decreases |s|
  {
    if |s| < |pat| then s
    else if s[..|pat|] == pat then RemoveAll(s[|pat|..], pat)
    else [s[0]] + RemoveAll(s[1..], pat)
  }

  /** A pattern holding a character that `s` lacks is never found, so nothing is removed. */
  lemma {:induction false} RemoveAllAbsent(s: string, pat: string, c: char)
    requires |pat| > 0 && c in pat && c !in s
    ensures RemoveAll(s, pat) == s
    decreases |s|
  {
    if |pat| <= |s| {
      assert s[..|pat|] != pat by {
        var k :| 0 <= k < |pat| && pat[k] == c;
        assert s[..|pat|][k] == s[k];
      }
      RemoveAllAbsent(s[1..], pat, c);
      assert s == [s[0]] + s[1..];
    }
  }

  /** A leading occurrence is removed and scanning resumes right after it. */
  lemma RemoveAllPrefix(pat: string, s: string)
    requires |pat| > 0
    ensures RemoveAll(pat + s, pat) == RemoveAll(s, pat)
  {
  }

  /** Text in which no occurrence of `pat` starts is kept as it is, and scanning goes on
      with what follows it. */
  lemma {:induction false} RemoveAllKeep(u: string, rest: string, pat: string)
    requires |pat| > 0
    requires forall j :: 0 <= j < |u| ==> !StartsWith((u + rest)[j..], pat)
    ensures RemoveAll(u + rest, pat) == u + RemoveAll(rest, pat)
    decreases |u|
  {
    if |u| == 0 {
      assert u + rest == rest;
    } else {
      var s := u + rest;
      forall j | 0 <= j < |u| - 1 ensures !StartsWith((u[1..] + rest)[j..], pat) {
        assert (u[1..] + rest)[j..] == s[j + 1..];
      }
      RemoveAllKeep(u[1..], rest, pat);
      assert s[1..] == u[1..] + rest;
      if |s| >= |pat| {
        assert s[0..] == s;
        assert RemoveAll(s, pat) == [u[0]] + RemoveAll(u[1..] + rest, pat);
      } else {
        assert RemoveAll(rest, pat) == rest;
      }
      assert u == [u[0]] + u[1..];
    }
  }

  /** `s.split(sep)[0]`: the text before the first `sep`, or all of `s` when it has none. */
  function BeforeFirst(s: string, sep: char): (r: string)
    ensures sep !in r
    ensures StartsWith(s, r)
    ensures |r| < |s| ==> s[|r|] == sep
    ensures sep !in s ==> r == s
  {
    if |s| == 0 || s[0] == sep then ""
    else [s[0]] + BeforeFirst(s[1..], sep)
  }

  /** Cutting at the first `sep` of `h + rest`, where `h` has none and `rest` starts with
      one, gives `h`. */
  lemma BeforeFirstAt(h: string, rest: string, sep: char)
    requires sep !in h && |rest| > 0 && rest[0] == sep
    ensures BeforeFirst(h + rest, sep) == h
  {
    var s := h + rest;
    assert s[|h|] == sep;
    assert forall i :: 0 <= i < |h| ==> s[i] == h[i];
    assert s[..|h|] == h;
  }
}
