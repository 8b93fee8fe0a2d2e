/** The ranking of task tabs in `saveTaskId` (scripts/actions.ts): every
    found tab is mapped to `[taskId, score]`, the pairs without an id are
    dropped, and the rest are sorted by score, highest first, with a stable
    sort (`toSorted` keeps equal elements in their order). The head of the
    result is the chosen task. */
module Ranking {
  import opened Promises
  import opened Tabs
  import opened TaskId

  /** The `[taskId, score]` pair of one tab. */
  datatype Ranked = Ranked(taskId: Option<string>, score: int)

  /** `getRankedTaskIdFromTab`: a tab with an id and a url scores 1 when
      active and 0 otherwise; any other tab gives `[null, -1]`. */
  function RankTab(t: Tab): (r: Ranked)
    ensures r.score == -1 <==> !(IsSet(t.id) && IsNonEmpty(t.url))
    ensures r.score != -1 ==> r.score == (if t.active then 1 else 0) && r.taskId == ExtractTaskId(t.url.value)
    // only a tab that yields a task id gives a pair with one
    ensures r.taskId.Some? <==> Yields(t)
    ensures r.taskId.Some? ==> |r.taskId.value| > 0 && AllDigits(r.taskId.value)
  {
    if IsSet(t.id) && IsNonEmpty(t.url) then Ranked(ExtractTaskId(t.url.value), if t.active then 1 else 0)
    else Ranked(None, -1)
  }

  /** `tabs.map(getRankedTaskIdFromTab)`. */
  function RankAll(tabs: seq<Tab>): (rs: seq<Ranked>)
    ensures |rs| == |tabs|
    ensures forall i :: 0 <= i < |tabs| ==> rs[i] == RankTab(tabs[i])
  {
    if tabs == [] then [] else [RankTab(tabs[0])] + RankAll(tabs[1..])
  }

  /** `.filter(id => id[0] !== null)`. */
  function KeepWithId(rs: seq<Ranked>): (kept: seq<Ranked>)
    ensures forall r :: r in kept <==> r in rs && r.taskId.Some?
    ensures |kept| <= |rs|
  {
    if rs == [] then []
    else (if rs[0].taskId.Some? then [rs[0]] else []) + KeepWithId(rs[1..])
  }

  /** The filter keeps each pair with an id as often as the input has it. */
  lemma {:induction false} KeepWithIdCounts(rs: seq<Ranked>, r: Ranked)
    requires r.taskId.Some?
    ensures multiset(KeepWithId(rs))[r] == multiset(rs)[r]
  {
    if rs != [] {
      assert rs == [rs[0]] + rs[1..];
      KeepWithIdCounts(rs[1..], r);
    }
  }

  /** The filter works element by element, keeping the order: filtering a
      concatenation concatenates the filtered parts. */
  lemma {:induction false} KeepWithIdAppend(a: seq<Ranked>, b: seq<Ranked>)
    ensures KeepWithId(a + b) == KeepWithId(a) + KeepWithId(b)
  {
    if a == [] {
      assert a + b == b;
    } else {
      assert (a + b)[0] == a[0];
      assert (a + b)[1..] == a[1..] + b;
      KeepWithIdAppend(a[1..], b);
    }
  }

  /** The order the comparator `(a, b) => b[1] - a[1]` asks for. */
  predicate SortedDesc(rs: seq<Ranked>)
  {
    forall i, j :: 0 <= i < j < |rs| ==> rs[i].score >= rs[j].score
  }

  /** Putting an element that scores at least as high as the head in front
      of a descending sequence keeps it descending. */
  lemma {:induction false} SortedCons(h: Ranked, t: seq<Ranked>)
    requires SortedDesc(t) && (t != [] ==> t[0].score <= h.score)
    ensures SortedDesc([h] + t)
  {
    var r := [h] + t;
    forall i, j | 0 <= i < j < |r|
      ensures r[i].score >= r[j].score
    {
      assert r[j] == t[j - 1];
      if i == 0 {
        assert t[0].score >= t[j - 1].score || j == 1;
      } else {
        assert r[i] == t[i - 1];
      }
    }
  }

  /** The head of a descending sequence scores at least as high as any
      of its elements. */
  lemma SortedHeadBound(rs: seq<Ranked>, y: Ranked)
    requires SortedDesc(rs) && y in rs
    ensures y.score <= rs[0].score
  {
    var k :| 0 <= k < |rs| && rs[k] == y;
    assert k == 0 || rs[0].score >= rs[k].score;
  }

  /** Inserts `x`, which came before every element of `rs` in the input,
      in front of the first element that does not score higher. */
  function Insert(x: Ranked, rs: seq<Ranked>): (r: seq<Ranked>)
    ensures multiset(r) == multiset(rs) + multiset{x}
    ensures forall y :: y in r <==> y in rs || y == x
    ensures SortedDesc(rs) ==> SortedDesc(r)
  {
    if rs == [] || rs[0].score <= x.score then
      assert SortedDesc(rs) ==> SortedDesc([x] + rs) by {
        if SortedDesc(rs) {
          SortedCons(x, rs);
        }
      }
      [x] + rs
    else
      assert rs == [rs[0]] + rs[1..];
      var tail := Insert(x, rs[1..]);
      assert SortedDesc(rs) ==> SortedDesc([rs[0]] + tail) by {
        if SortedDesc(rs) {
          assert SortedDesc(rs[1..]) by {
            forall i, j | 0 <= i < j < |rs[1..]|
              ensures rs[1..][i].score >= rs[1..][j].score
            {
              assert rs[1..][i] == rs[i + 1] && rs[1..][j] == rs[j + 1];
            }
          }
          assert tail[0] in rs[1..] || tail[0] == x;
          if tail[0] != x {
            SortedHeadBound(rs, tail[0]);
          }
          SortedCons(rs[0], tail);
        }
      }
      [rs[0]] + tail
  }

  /** `toSorted` with the comparator: a stable sort, highest score first. */
  function Sort(rs: seq<Ranked>): (sorted: seq<Ranked>)
    ensures SortedDesc(sorted)
    ensures multiset(sorted) == multiset(rs)
  {
    if rs == [] then []
    else
      assert rs == [rs[0]] + rs[1..];
      Insert(rs[0], Sort(rs[1..]))
  }

  /** The elements with score `k`, in order. */
  function WithScore(rs: seq<Ranked>, k: int): seq<Ranked>
  {
    if rs == [] then []
    else (if rs[0].score == k then [rs[0]] else []) + WithScore(rs[1..], k)
  }

  lemma {:induction false} InsertKeepsOrder(x: Ranked, rs: seq<Ranked>, k: int)
    ensures WithScore(Insert(x, rs), k) == (if x.score == k then [x] else []) + WithScore(rs, k)
    decreases |rs|
  {
    if rs == [] || rs[0].score <= x.score {
      assert ([x] + rs)[1..] == rs;
    } else {
      var r := Insert(x, rs);
      assert r[0] == rs[0] && r[1..] == Insert(x, rs[1..]);
      InsertKeepsOrder(x, rs[1..], k);
    }
  }

  /** The sort is stable: for every score, the elements with that score
      keep their relative order. */
  lemma {:induction false} SortIsStable(rs: seq<Ranked>, k: int)
    ensures WithScore(Sort(rs), k) == WithScore(rs, k)
  {
    if rs != [] {
      InsertKeepsOrder(rs[0], Sort(rs[1..]), k);
      SortIsStable(rs[1..], k);
    }
  }

  /** The highest score in a non-empty sequence. */
  function MaxScore(rs: seq<Ranked>): (m: int)
    requires rs != []
    ensures forall i :: 0 <= i < |rs| ==> rs[i].score <= m
    ensures exists i :: 0 <= i < |rs| && rs[i].score == m
  {
    if |rs| == 1 then rs[0].score
    else
      var m := MaxScore(rs[1..]);
      assert forall i :: 1 <= i < |rs| ==> rs[i] == rs[1..][i - 1];
      if rs[0].score >= m then rs[0].score else m
  }

  /** The first element with score `k`, if any. */
  function FirstOfScore(rs: seq<Ranked>, k: int): (r: Option<Ranked>)
    ensures r.Some? ==> r.value in rs && r.value.score == k
    ensures r.None? <==> forall i :: 0 <= i < |rs| ==> rs[i].score != k
  {
    if rs == [] then None
    else if rs[0].score == k then Some(rs[0])
    else
      assert forall i :: 1 <= i < |rs| ==> rs[i] == rs[1..][i - 1];
      FirstOfScore(rs[1..], k)
  }

  /** The head of the sorted sequence is the earliest element of the
      highest score. */
  lemma {:induction false} SortHead(rs: seq<Ranked>)
    requires rs != []
    ensures Some(Sort(rs)[0]) == FirstOfScore(rs, MaxScore(rs))
  {
    if |rs| > 1 {
      var rest := rs[1..];
      SortHead(rest);
      var t := Sort(rest);
      assert multiset(t) == multiset(rest);
      assert t != [] by { assert rest[0] in multiset(rest); }
    }
  }

  /** A tab from which ranking mode can take a task id. */
  predicate Yields(t: Tab)
  {
    IsSet(t.id) && IsNonEmpty(t.url) && ExtractTaskId(t.url.value).Some?
  }

  /** A tab eligible for the choice: it yields an id and, when
      `activeOnly`, it is active. */
  predicate Eligible(t: Tab, activeOnly: bool)
  {
    Yields(t) && (activeOnly ==> t.active)
  }

  /** The pairs that survive the filter, in query order. */
  function Candidates(tabs: seq<Tab>): seq<Ranked>
  {
    KeepWithId(RankAll(tabs))
  }

  /** `ids` in `saveTaskId`. */
  function RankedTaskIds(tabs: seq<Tab>): (ids: seq<Ranked>)
    ensures SortedDesc(ids)
    ensures multiset(ids) == multiset(Candidates(tabs))
    ensures forall i :: 0 <= i < |ids| ==> ids[i].taskId.Some?
  {
    var kept := Candidates(tabs);
    var sorted := Sort(kept);
    assert forall i :: 0 <= i < |sorted| ==> sorted[i] in multiset(kept);
    sorted
  }

  /** Reference choice: the index of the first eligible tab in query order. */
  function FirstEligible(tabs: seq<Tab>, activeOnly: bool): (r: Option<nat>)
    ensures r.Some? ==> r.value < |tabs| && Eligible(tabs[r.value], activeOnly)
    ensures r.Some? ==> forall j :: 0 <= j < r.value ==> !Eligible(tabs[j], activeOnly)
    ensures r.None? <==> forall j :: 0 <= j < |tabs| ==> !Eligible(tabs[j], activeOnly)
  {
    if tabs == [] then None
    else if Eligible(tabs[0], activeOnly) then Some(0)
    else
      assert forall j :: 1 <= j < |tabs| ==> tabs[j] == tabs[1..][j - 1];
      match FirstEligible(tabs[1..], activeOnly)
      case None => None
      case Some(i) => Some(i + 1)
  }

  /** Reference choice: the task id of the first active tab that yields
      one, or else of the first tab that yields one. */
  function ChosenTaskId(tabs: seq<Tab>): Option<string>
  {
    var pick := if FirstEligible(tabs, true).Some? then FirstEligible(tabs, true) else FirstEligible(tabs, false);
    if pick.Some? then ExtractTaskId(tabs[pick.value].url.value) else None
  }

  /** The filter keeps exactly the tabs that yield an id, with their scores. */
  lemma CandidatesCons(tabs: seq<Tab>)
    requires tabs != []
    ensures Candidates(tabs) == (if Yields(tabs[0]) then [RankTab(tabs[0])] else []) + Candidates(tabs[1..])
  {
    var rs := RankAll(tabs);
    assert rs[1..] == RankAll(tabs[1..]);
  }

  /** The filter leaves nothing exactly when no tab yields an id. */
  lemma {:induction false} CandidatesEmpty(tabs: seq<Tab>)
    ensures Candidates(tabs) == [] <==> FirstEligible(tabs, false).None?
  {
    if tabs != [] {
      CandidatesCons(tabs);
      CandidatesEmpty(tabs[1..]);
    }
  }

  /** Every surviving pair scores 0 or 1. */
  lemma {:induction false} CandidateScores(tabs: seq<Tab>)
    ensures forall r :: r in Candidates(tabs) ==> r.score == 0 || r.score == 1
  {
    if tabs != [] {
      CandidatesCons(tabs);
      CandidateScores(tabs[1..]);
    }
  }

  /** Elements in front that do not have score `k` do not change the
      first element with score `k`. */
  lemma FirstOfScoreSkip(h: seq<Ranked>, c: seq<Ranked>, k: int)
    requires forall i :: 0 <= i < |h| ==> h[i].score != k
    ensures FirstOfScore(h + c, k) == FirstOfScore(c, k)
  {
    if h == [] {
      assert h + c == c;
    } else {
      assert (h + c)[0] == h[0] && (h + c)[1..] == h[1..] + c;
      FirstOfScoreSkip(h[1..], c, k);
    }
  }

  /** The first pair scoring 1 comes from the first active tab that
      yields an id, and there is none when no such tab exists. */
  lemma {:induction false} FirstActiveCandidate(tabs: seq<Tab>)
    ensures FirstEligible(tabs, true).None? ==> FirstOfScore(Candidates(tabs), 1).None?
    ensures FirstEligible(tabs, true).Some? ==>
      var i := FirstEligible(tabs, true).value;
      FirstOfScore(Candidates(tabs), 1) == Some(Ranked(ExtractTaskId(tabs[i].url.value), 1))
  {
    if tabs != [] {
      CandidatesCons(tabs);
      var head := if Yields(tabs[0]) then [RankTab(tabs[0])] else [];
      var c := Candidates(tabs[1..]);
      if Eligible(tabs[0], true) {
        assert Candidates(tabs)[0] == Ranked(ExtractTaskId(tabs[0].url.value), 1);
      } else {
        FirstActiveCandidate(tabs[1..]);
        FirstOfScoreSkip(head, c, 1);
        if FirstEligible(tabs, true).Some? {
          var i := FirstEligible(tabs, true).value;
          assert tabs[i] == tabs[1..][i - 1];
        }
      }
    }
  }

  /** A first tab that yields no id adds no candidate, and the reference
      choices are those of the other tabs, one place further on. */
  lemma NoYieldHead(tabs: seq<Tab>, activeOnly: bool)
    requires tabs != [] && !Yields(tabs[0])
    ensures Candidates(tabs) == Candidates(tabs[1..])
    ensures FirstEligible(tabs, activeOnly).None? <==> FirstEligible(tabs[1..], activeOnly).None?
    ensures FirstEligible(tabs, activeOnly).Some? ==> FirstEligible(tabs, activeOnly).value == FirstEligible(tabs[1..], activeOnly).value + 1
  {
    CandidatesCons(tabs);
  }

  /** When no active tab yields an id, the first pair scoring 0 comes from
      the first tab that yields one. */
  lemma {:induction false} FirstInactiveCandidate(tabs: seq<Tab>)
    requires FirstEligible(tabs, true).None? && FirstEligible(tabs, false).Some?
    ensures var j := FirstEligible(tabs, false).value;
      FirstOfScore(Candidates(tabs), 0) == Some(Ranked(ExtractTaskId(tabs[j].url.value), 0))
  {
    if Eligible(tabs[0], false) {
      CandidatesCons(tabs);
      assert !tabs[0].active;
      assert Candidates(tabs)[0] == Ranked(ExtractTaskId(tabs[0].url.value), 0);
    } else {
      NoYieldHead(tabs, true);
      NoYieldHead(tabs, false);
      FirstInactiveCandidate(tabs[1..]);
      var j := FirstEligible(tabs, false).value;
      assert tabs[j] == tabs[1..][j - 1];
    }
  }

  /** Ranking mode finds no id exactly when no found tab yields one; when
      it finds one, the head is the reference choice. */
  lemma RankedChoice(tabs: seq<Tab>)
    ensures RankedTaskIds(tabs) == [] <==> forall j :: 0 <= j < |tabs| ==> !Yields(tabs[j])
    ensures RankedTaskIds(tabs) != [] ==> RankedTaskIds(tabs)[0].taskId == ChosenTaskId(tabs) && ChosenTaskId(tabs).Some?
  {
    var c := Candidates(tabs);
    CandidatesEmpty(tabs);
    assert multiset(RankedTaskIds(tabs)) == multiset(c);
    if c != [] {
      SortHead(c);
      CandidateScores(tabs);
      FirstActiveCandidate(tabs);
      if FirstEligible(tabs, true).None? {
        FirstInactiveCandidate(tabs);
      }
    }
  }
}
