/** Task-id extraction (scripts/util.ts, `extractTaskId`): the first match
    of the regular expression `/\/tasks\/(\d+)-/` in a url, and its
    capture group, written as a scan over the string. */
module TaskId {
  import opened Promises

  const Marker := "/tasks/"

  /** `\d`: an ASCII digit. */
  predicate IsDigit(c: char)
  {
    '0' <= c <= '9'
  }

  predicate AllDigits(s: string)
  {
    forall i :: 0 <= i < |s| ==> IsDigit(s[i])
  }

  /** `w` occurs in `s` at position `p`. */
  predicate OccursAt(s: string, p: nat, w: string)
  {
    p + |w| <= |s| && s[p..p + |w|] == w
  }

  /** Reference meaning of the pattern: `/tasks/` followed by the digits
      `d` (at least one) followed by `-` occurs in `url` at `p`. */
  predicate IsTaskIdMatch(url: string, p: nat, d: string)
  {
    |d| > 0 && AllDigits(d) && OccursAt(url, p, Marker + d + "-")
  }

  /** Length of the run of digits that starts at `i`, as greedy `\d+` reads it. */
  function DigitRun(url: string, i: nat): (n: nat)
    requires i <= |url|
    ensures i + n <= |url|
    ensures AllDigits(url[i..i + n])
    ensures i + n == |url| || !IsDigit(url[i + n])
    decreases |url| - i
  {
    if i < |url| && IsDigit(url[i]) then 1 + DigitRun(url, i + 1) else 0
  }

  /** The pattern matches with its match starting at `p`. Since `-` is not a
      digit, backtracking into `\d+` cannot help: the match exists exactly
      when the greedy run is non-empty and is followed by `-`. */
  predicate MatchesAt(url: string, p: nat)
  {
    && OccursAt(url, p, Marker)
    && var start := p + |Marker|;
       var n := DigitRun(url, start);
       n > 0 && start + n < |url| && url[start + n] == '-'
  }

  /** The capture group of a match at `p`. */
  function CaptureAt(url: string, p: nat): (d: string)
    requires MatchesAt(url, p)
    ensures IsTaskIdMatch(url, p, d)
  {
    var start := p + |Marker|;
    var d := url[start..start + DigitRun(url, start)];
    assert url[p..p + |Marker + d + "-"|] == url[p..start] + d + "-";
    d
  }

  /** The leftmost match position at or after `from`, as the regex engine
      tries start positions left to right. */
  function FirstMatchFrom(url: string, from: nat): (r: Option<nat>)
    requires from <= |url|
    ensures r.Some? ==> from <= r.value <= |url| && MatchesAt(url, r.value)
    ensures r.Some? ==> forall q :: from <= q < r.value ==> !MatchesAt(url, q)
    ensures r.None? ==> forall q :: from <= q <= |url| ==> !MatchesAt(url, q)
    decreases |url| - from
  {
    if MatchesAt(url, from) then Some(from)
    else if from == |url| then None
    else FirstMatchFrom(url, from + 1)
  }

  /** `extractTaskId(url)`: the capture of the leftmost match, or null. */
  function ExtractTaskId(url: string): (r: Option<string>)
    ensures r.Some? ==> |r.value| > 0 && AllDigits(r.value)
  {
    match FirstMatchFrom(url, 0)
    case None => None
    case Some(p) => Some(CaptureAt(url, p))
  }

  /** A match of the reference pattern at `p` is a match of the scan at `p`,
      and its digits are the capture there: the digits are the whole run. */
  lemma {:induction false} MatchesAtIff(url: string, p: nat, d: string)
    ensures IsTaskIdMatch(url, p, d) <==> MatchesAt(url, p) && d == CaptureAt(url, p)
  {
    if IsTaskIdMatch(url, p, d) {
      var start := p + |Marker|;
      var w := Marker + d + "-";
      assert url[p..p + |w|] == w;
      assert OccursAt(url, p, Marker) by {
        assert url[p..start] == url[p..p + |w|][..|Marker|];
      }
      forall k | 0 <= k < |d|
        ensures url[start + k] == d[k]
      {
        assert url[start + k] == w[|Marker| + k];
      }
      assert url[start + |d|] == '-' by {
        assert url[start + |d|] == w[|Marker| + |d|];
      }
      DigitRunOf(url, start, d);
      assert url[start..start + |d|] == d;
    }
  }

  /** A digit string `d` found at `i` and followed by a non-digit is exactly
      the greedy run there. */
  lemma {:induction false} DigitRunOf(url: string, i: nat, d: string)
    requires AllDigits(d) && i + |d| < |url| && !IsDigit(url[i + |d|])
    requires forall k :: 0 <= k < |d| ==> url[i + k] == d[k]
    ensures DigitRun(url, i) == |d|
    decreases |d|
  {
    if |d| > 0 {
      assert IsDigit(url[i]) by { assert url[i + 0] == d[0]; }
      forall k | 0 <= k < |d[1..]|
        ensures url[i + 1 + k] == d[1..][k]
      {
        assert url[i + (k + 1)] == d[k + 1];
      }
      assert i + 1 + |d[1..]| == i + |d|;
      DigitRunOf(url, i + 1, d[1..]);
    }
  }

  /** A non-null result is the digits of a match that no earlier position has. */
  lemma ExtractedIsLeftmostMatch(url: string, d: string)
    requires ExtractTaskId(url) == Some(d)
    ensures exists p: nat :: IsTaskIdMatch(url, p, d) && forall q: nat, e :: q < p ==> !IsTaskIdMatch(url, q, e)
  {
    var p := FirstMatchFrom(url, 0).value;
    assert IsTaskIdMatch(url, p, d);
    forall q: nat, e | q < p
      ensures !IsTaskIdMatch(url, q, e)
    {
      MatchesAtIff(url, q, e);
    }
  }

  /** Conversely, the digits of the leftmost match are what is returned. */
  lemma LeftmostMatchIsExtracted(url: string, p: nat, d: string)
    requires IsTaskIdMatch(url, p, d)
    requires forall q: nat, e :: q < p ==> !IsTaskIdMatch(url, q, e)
    ensures ExtractTaskId(url) == Some(d)
  {
    MatchesAtIff(url, p, d);
    var r := FirstMatchFrom(url, 0);
    assert p <= |url|;
    assert r.Some?;
    MatchesAtIff(url, r.value, CaptureAt(url, r.value));
  }

  /** The result is null exactly when the pattern occurs nowhere. */
  lemma NullIffNoMatch(url: string)
    ensures ExtractTaskId(url).None? <==> forall p: nat, d :: !IsTaskIdMatch(url, p, d)
  {
    if ExtractTaskId(url).None? {
      forall p: nat, d
        ensures !IsTaskIdMatch(url, p, d)
      {
        MatchesAtIff(url, p, d);
      }
    } else {
      var p := FirstMatchFrom(url, 0).value;
      assert IsTaskIdMatch(url, p, CaptureAt(url, p));
    }
  }

  /** Every match has the `k` of `/tasks/` four characters after its start. */
  lemma MatchHasK(url: string, p: nat)
    requires MatchesAt(url, p)
    ensures p + 4 < |url| && url[p + 4] == 'k'
  {
    assert url[p..p + |Marker|][4] == Marker[4];
  }

  /** A url without the letter `k` yields null. */
  lemma NoKNoTaskId(url: string)
    requires 'k' !in url
    ensures ExtractTaskId(url) == None
  {
    var r := FirstMatchFrom(url, 0);
    if r.Some? {
      MatchHasK(url, r.value);
    }
  }

  /** Below `/tasks/` in `pre + /tasks/ + rest`, only its own `k` can be
      the `k` of a match when `pre` has none. */
  lemma {:induction false} OnlyMarkerCanMatch(pre: string, rest: string, q: nat)
    requires 'k' !in pre
    requires MatchesAt(pre + Marker + rest, q)
    requires q <= |pre| || 'k' !in rest
    ensures q == |pre|
  {
    var url := pre + Marker + rest;
    MatchHasK(url, q);
  }

  /** `/tasks/<digits>-` right after a prefix without `k` yields the digits. */
  lemma {:induction false} TaskIdAfterPrefix(url: string, pre: string, d: string, rest: string)
    requires url == pre + Marker + d + "-" + rest
    requires 'k' !in pre && |d| > 0 && AllDigits(d)
    ensures ExtractTaskId(url) == Some(d)
  {
    var w := Marker + d + "-";
    assert url == pre + w + rest;
    assert url[|pre|..|pre| + |w|] == w;
    assert IsTaskIdMatch(url, |pre|, d);
    forall q: nat, e | q < |pre|
      ensures !IsTaskIdMatch(url, q, e)
    {
      MatchesAtIff(url, q, e);
      if MatchesAt(url, q) {
        assert url == pre + Marker + (d + "-" + rest);
        OnlyMarkerCanMatch(pre, d + "-" + rest, q);
      }
    }
    LeftmostMatchIsExtracted(url, |pre|, d);
  }

  /** `/tasks/` followed by a non-digit, with no other `k` around it, yields null. */
  lemma {:induction false} MarkerWithoutDigits(url: string, pre: string, rest: string)
    requires url == pre + Marker + rest
    requires 'k' !in pre && 'k' !in rest
    requires rest == [] || !IsDigit(rest[0])
    ensures ExtractTaskId(url) == None
  {
    var r := FirstMatchFrom(url, 0);
    if r.Some? {
      OnlyMarkerCanMatch(pre, rest, r.value);
    }
  }

  const Site := "https://www.multimango.com"

  /** Test case: a standard task url yields its digits. */
  lemma StandardTaskUrl()
    ensures ExtractTaskId("https://www.multimango.com/tasks/260126-text-to-image-compare") == Some("260126")
  {
    var url := "https://www.multimango.com/tasks/260126-text-to-image-compare";
    var rest := "text-to-image-compare";
    var tail := "260126" + "-" + rest;
    assert url == Site + (Marker + tail);
    assert 'k' !in Site && AllDigits("260126");
    TaskIdAfterPrefix(url, Site, "260126", rest);
  }

  /** Test case: a url without `/tasks/` yields null. */
  lemma UrlWithoutTasks()
    ensures ExtractTaskId("https://www.google.com/search?q=260126") == None
  {
    var url := "https://www.google.com/search?q=260126";
    var pre, post := "https://www.google.com", "/search?q=260126";
    assert 'k' !in pre + post;
    assert url == pre + post;
    NoKNoTaskId(url);
  }

  /** Test case: letters after `/tasks/` yield null. */
  lemma TasksWithoutDigits()
    ensures ExtractTaskId("https://www.multimango.com/tasks/abc-text-to-image") == None
  {
    var url := "https://www.multimango.com/tasks/abc-text-to-image";
    assert url == Site + Marker + "abc-text-to-image";
    MarkerWithoutDigits(url, Site, "abc-text-to-image");
  }

  /** Test case: the url of a mocked tab yields its digits. */
  lemma MockedTabUrl()
    ensures ExtractTaskId("https://www.multimango.com/tasks/999888-test-task") == Some("999888")
  {
    var url := "https://www.multimango.com/tasks/999888-test-task";
    assert url == Site + Marker + "999888" + "-" + "test-task";
    TaskIdAfterPrefix(url, Site, "999888", "test-task");
  }
}
