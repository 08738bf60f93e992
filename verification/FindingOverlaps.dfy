/** The order of a scanner's findings, and how overlapping ones are collapsed. */
module FindingOverlaps {

  /** A span of the scanned text that holds a secret. */
  datatype Finding = Finding(tag: string, start: nat, end: nat, value: string, confidence: real)

  // ---- Sorting ------------------------------------------------------------------------------------------

  predicate Precedes(a: Finding, b: Finding) {
    a.start < b.start || (a.start == b.start && a.end >= b.end)
  }

  /** By start, and the longer first where they start together. */
  ghost predicate Sorted(findings: seq<Finding>) {
    forall i, j :: 0 <= i < j < |findings| ==>
      findings[i].start < findings[j].start || (findings[i].start == findings[j].start && findings[i].end >= findings[j].end)
  }

  lemma InsertedSorted(findings: seq<Finding>, x: Finding, p: nat)
    requires Sorted(findings) && p <= |findings|
    requires p > 0 ==> Precedes(findings[p - 1], x)
    requires forall i :: p <= i < |findings| ==> Precedes(x, findings[i])
    ensures Sorted(findings[..p] + [x] + findings[p..])
  {
    var r := findings[..p] + [x] + findings[p..];
    forall i | 0 <= i < p ensures Precedes(findings[i], x) {
      assert i < p - 1 ==> Precedes(findings[i], findings[p - 1]);
    }
    assert forall i :: 0 <= i < |r| ==> r[i] == if i < p then findings[i] else if i == p then x else findings[i - 1];
  }

  lemma InsertedHolds(findings: seq<Finding>, x: Finding, p: nat)
    requires p <= |findings|
    ensures multiset(findings[..p] + [x] + findings[p..]) == multiset(findings) + multiset{x}
  {
    assert findings == findings[..p] + findings[p..];
  }

  /** The comparator's order: by start, the longer one first. */
  method SortFindings(findings: seq<Finding>) returns (sorted: seq<Finding>)
    ensures Sorted(sorted) && multiset(sorted) == multiset(findings)
  {
    sorted := [];
    for k := 0 to |findings|
      invariant Sorted(sorted) && multiset(sorted) == multiset(findings[..k])
    {
      var x := findings[k];
      var p: nat := |sorted|;
      while p > 0 && !Precedes(sorted[p - 1], x)
        invariant p <= |sorted|
        invariant forall i :: p <= i < |sorted| ==> Precedes(x, sorted[i])
      {
        p := p - 1;
      }
      InsertedSorted(sorted, x, p);
      InsertedHolds(sorted, x, p);
      sorted := sorted[..p] + [x] + sorted[p..];
      assert findings[..k + 1] == findings[..k] + [x];
    }
    assert findings[..|findings|] == findings;
  }

  // ---- Collapsing ---------------------------------------------------------------------------------------

  function Width(f: Finding): int {
    f.end - f.start
  }

  /** At least as confident, and at least as wide where equally confident. */
  predicate AtLeast(a: Finding, b: Finding) {
    a.confidence > b.confidence || (a.confidence == b.confidence && Width(a) >= Width(b))
  }

  function Better(previous: Finding, current: Finding): Finding {
    if AtLeast(previous, current) then previous else current
  }

  /** What is kept of a run that has come to `previous`, and of the findings after it. */
  function CollapseFrom(previous: Finding, rest: seq<Finding>): (kept: seq<Finding>)
    ensures kept != []
    decreases |rest|
  {
    if rest == [] then [previous]
    else if rest[0].start < previous.end then CollapseFrom(Better(previous, rest[0]), rest[1..])
    else [previous] + CollapseFrom(rest[0], rest[1..])
  }

  function Collapse(findings: seq<Finding>): seq<Finding> {
    if findings == [] then [] else CollapseFrom(findings[0], findings[1..])
  }

  /** The loop over the sorted findings. */
  method CollapseOverlappingFindings(findings: seq<Finding>) returns (out: seq<Finding>)
    ensures out == Collapse(findings)
  {
    if |findings| <= 1 {
      return findings;
    }
    out := [];
    var previous := findings[0];
    for index := 1 to |findings|
      invariant out + CollapseFrom(previous, findings[index..]) == Collapse(findings)
    {
      var current := findings[index];
      assert findings[index..][1..] == findings[index + 1..];
      if current.start < previous.end {
        var previousRange := previous.end - previous.start;
        var currentRange := current.end - current.start;
        if current.confidence > previous.confidence
           || (current.confidence == previous.confidence && currentRange > previousRange) {
          previous := current;
        }
      } else {
        assert out + ([previous] + CollapseFrom(current, findings[index + 1..]))
            == out + [previous] + CollapseFrom(current, findings[index + 1..]);
        out := out + [previous];
        previous := current;
      }
    }
    out := out + [previous];
  }

  /** What is kept was found. */
  lemma {:induction false} CollapseFromChooses(previous: Finding, rest: seq<Finding>)
    ensures forall f :: f in CollapseFrom(previous, rest) ==> f == previous || f in rest
    decreases |rest|
  {
    if rest != [] {
      CollapseFromChooses(if rest[0].start < previous.end then Better(previous, rest[0]) else rest[0], rest[1..]);
    }
  }

  lemma CollapseChooses(findings: seq<Finding>)
    ensures forall f :: f in Collapse(findings) ==> f in findings
  {
    if findings != [] {
      CollapseFromChooses(findings[0], findings[1..]);
    }
  }

  /** Each finding ends before the next one starts. */
  ghost predicate Disjoint(findings: seq<Finding>) {
    forall i, j :: 0 <= i < j < |findings| ==> findings[i].end <= findings[j].start
  }

  ghost predicate StartFrom(findings: seq<Finding>, at: nat) {
    forall i :: 0 <= i < |findings| ==> findings[i].start >= at
  }

  ghost predicate Proper(findings: seq<Finding>) {
    forall i :: 0 <= i < |findings| ==> findings[i].start <= findings[i].end
  }

  lemma SortedTail(first: Finding, rest: seq<Finding>)
    requires Sorted([first] + rest)
    ensures Sorted(rest) && StartFrom(rest, first.start)
  {
    var all := [first] + rest;
    assert all[1..] == rest;
    forall i | 0 <= i < |rest| ensures rest[i].start >= first.start {
      assert all[0] == first && all[i + 1] == rest[i];
    }
  }

  /** Kept findings follow each other without overlap, whatever was collapsed into them. */
  lemma {:induction false} CollapseFromDisjoint(previous: Finding, rest: seq<Finding>, from: nat)
    requires Sorted(rest) && Proper(rest) && previous.start <= previous.end
    requires from <= previous.start && StartFrom(rest, from)
    ensures Disjoint(CollapseFrom(previous, rest)) && StartFrom(CollapseFrom(previous, rest), from)
    ensures Proper(CollapseFrom(previous, rest))
    decreases |rest|
  {
    if rest != [] {
      assert rest == [rest[0]] + rest[1..];
      SortedTail(rest[0], rest[1..]);
      assert Proper(rest[1..]) && StartFrom(rest[1..], from);
      if rest[0].start < previous.end {
        CollapseFromDisjoint(Better(previous, rest[0]), rest[1..], from);
      } else {
        CollapseFromDisjoint(rest[0], rest[1..], rest[0].start);
        DisjointCons(previous, CollapseFrom(rest[0], rest[1..]), rest[0].start);
      }
    }
  }

  lemma DisjointCons(first: Finding, rest: seq<Finding>, at: nat)
    requires Disjoint(rest) && StartFrom(rest, at) && first.end <= at
    ensures Disjoint([first] + rest)
  {
    var all := [first] + rest;
    forall i, j | 0 <= i < j < |all| ensures all[i].end <= all[j].start {
      assert all[j] == rest[j - 1];
      assert i > 0 ==> all[i] == rest[i - 1];
    }
  }

  lemma CollapseDisjoint(findings: seq<Finding>)
    requires Sorted(findings) && Proper(findings)
    ensures Disjoint(Collapse(findings)) && Proper(Collapse(findings))
  {
    if findings != [] {
      assert findings == [findings[0]] + findings[1..];
      SortedTail(findings[0], findings[1..]);
      CollapseFromDisjoint(findings[0], findings[1..], findings[0].start);
    }
  }

  /** How many findings, of a run that has come to `previous`, are still to come. */
  function RunLength(previous: Finding, rest: seq<Finding>): (n: nat)
    ensures n <= |rest|
    decreases |rest|
  {
    if rest == [] || rest[0].start >= previous.end then 0 else 1 + RunLength(Better(previous, rest[0]), rest[1..])
  }

  /** More confident, or wider where equally confident. */
  predicate Outdoes(a: Finding, b: Finding) {
    a.confidence > b.confidence || (a.confidence == b.confidence && a.end - a.start > b.end - b.start)
  }

  /** The first of the findings that none outdoes. */
  ghost predicate IsBest(best: Finding, run: seq<Finding>) {
    exists k :: 0 <= k < |run| && run[k] == best
                && (forall i :: 0 <= i < |run| ==> !Outdoes(run[i], best))
                && (forall i :: 0 <= i < k ==> Outdoes(best, run[i]))
  }

  /** The best of the findings so far reaches into this one. */
  ghost predicate Reaches(run: seq<Finding>, next: Finding) {
    exists best :: IsBest(best, run) && next.start < best.end
  }

  /** The run hangs together: into each of its findings but the first reaches the best of those before it. */
  ghost predicate IsRun(run: seq<Finding>) {
    forall k :: 0 < k < |run| ==> Reaches(run[..k], run[k])
  }

  /** The findings divide into runs that hang together, into none of which reaches the best of the run before,
    * and of each run the best is kept. */
  ghost predicate BestOfRuns(findings: seq<Finding>, kept: seq<Finding>)
    decreases |kept|
  {
    if kept == [] then findings == [] else exists n: nat :: FirstRun(findings, kept[0], n) && BestOfRuns(findings[n..], kept[1..])
  }

  ghost predicate FirstRun(findings: seq<Finding>, best: Finding, n: nat) {
    && 0 < n <= |findings|
    && IsRun(findings[..n]) && IsBest(best, findings[..n])
    && (n < |findings| ==> !Reaches(findings[..n], findings[n]))
  }

  lemma OneBest(a: Finding, b: Finding, run: seq<Finding>)
    requires IsBest(a, run) && IsBest(b, run)
    ensures a == b
  {
  }

  lemma BestOfMore(best: Finding, run: seq<Finding>, next: Finding)
    requires IsBest(best, run)
    ensures IsBest(Better(best, next), run + [next])
  {
    var longer := run + [next];
    var k :| 0 <= k < |run| && run[k] == best && (forall i :: 0 <= i < |run| ==> !Outdoes(run[i], best))
             && (forall i :: 0 <= i < k ==> Outdoes(best, run[i]));
    if Better(best, next) == best {
      assert longer[k] == best;
    } else {
      assert longer[|run|] == next;
    }
  }

  lemma RunGoesOn(run: seq<Finding>, best: Finding, next: Finding)
    requires IsRun(run) && IsBest(best, run) && next.start < best.end
    ensures IsRun(run + [next])
  {
    var longer := run + [next];
    forall k | 0 < k < |longer| ensures Reaches(longer[..k], longer[k]) {
      if k < |run| {
        assert longer[..k] == run[..k];
      } else {
        assert longer[..k] == run;
      }
    }
  }

  lemma {:induction false} RunEnds(previous: Finding, run: seq<Finding>, rest: seq<Finding>)
    requires IsRun(run) && IsBest(previous, run)
    ensures var n := RunLength(previous, rest); var kept := CollapseFrom(previous, rest); var whole := run + rest[..n];
      && IsRun(whole) && IsBest(kept[0], whole)
      && (n < |rest| ==> !Reaches(whole, rest[n]) && kept[1..] == CollapseFrom(rest[n], rest[n + 1..]))
      && (n == |rest| ==> kept[1..] == [])
    decreases |rest|
  {
    if rest == [] || rest[0].start >= previous.end {
      assert run + rest[..0] == run;
      if rest != [] {
        NotReached(previous, run, rest[0]);
      }
    } else {
      var better := Better(previous, rest[0]);
      BestOfMore(previous, run, rest[0]);
      RunGoesOn(run, previous, rest[0]);
      RunEnds(better, run + [rest[0]], rest[1..]);
      OneFurther(run, rest, RunLength(better, rest[1..]));
    }
  }

  lemma NotReached(best: Finding, run: seq<Finding>, next: Finding)
    requires IsBest(best, run) && next.start >= best.end
    ensures !Reaches(run, next)
  {
    forall b | IsBest(b, run) ensures b == best {
      OneBest(b, best, run);
    }
  }

  lemma OneFurther(run: seq<Finding>, rest: seq<Finding>, m: nat)
    requires rest != [] && m <= |rest[1..]|
    ensures run + [rest[0]] + rest[1..][..m] == run + rest[..m + 1]
    ensures m < |rest[1..]| ==> rest[1..][m] == rest[m + 1] && rest[1..][m + 1..] == rest[m + 2..]
  {
  }

  lemma BestAlone(f: Finding)
    ensures IsRun([f]) && IsBest(f, [f])
  {
    assert [f][0] == f;
  }

  lemma {:induction false} CollapseKeepsBest(findings: seq<Finding>)
    ensures BestOfRuns(findings, Collapse(findings))
    decreases |findings|
  {
    if findings != [] {
      var first, rest := findings[0], findings[1..];
      var kept := Collapse(findings);
      BestAlone(first);
      RunEnds(first, [first], rest);
      var n := 1 + RunLength(first, rest);
      assert findings[..n] == [first] + rest[..n - 1];
      if n < |findings| {
        assert rest[n - 1] == findings[n] && rest[n..] == findings[n + 1..];
        assert findings[n..][0] == findings[n] && findings[n..][1..] == findings[n + 1..];
        assert kept[1..] == Collapse(findings[n..]);
      } else {
        assert findings[n..] == [];
      }
      assert FirstRun(findings, kept[0], n);
      CollapseKeepsBest(findings[n..]);
    }
  }

  lemma RunReaches(findings: seq<Finding>, m: nat, n: nat)
    requires n <= |findings| && IsRun(findings[..n])
    ensures 0 < m < n ==> Reaches(findings[..m], findings[m])
  {
    if 0 < m < n {
      assert findings[..n][..m] == findings[..m];
    }
  }

  lemma OneFirstRun(findings: seq<Finding>, a: Finding, m: nat, b: Finding, n: nat)
    requires FirstRun(findings, a, m) && FirstRun(findings, b, n)
    ensures m == n && a == b
  {
    RunReaches(findings, m, n);
    RunReaches(findings, n, m);
    OneBest(a, b, findings[..n]);
  }

  lemma {:induction false} OneDivision(findings: seq<Finding>, a: seq<Finding>, b: seq<Finding>)
    requires BestOfRuns(findings, a) && BestOfRuns(findings, b)
    ensures a == b
    decreases |a|
  {
    if a != [] && b != [] {
      var m: nat :| FirstRun(findings, a[0], m) && BestOfRuns(findings[m..], a[1..]);
      var n: nat :| FirstRun(findings, b[0], n) && BestOfRuns(findings[n..], b[1..]);
      OneFirstRun(findings, a[0], m, b[0], n);
      OneDivision(findings[m..], a[1..], b[1..]);
    }
  }

  /** That is all there is to it: nothing else divides the findings like this. */
  lemma CollapseIsExact(findings: seq<Finding>, kept: seq<Finding>)
    ensures kept == Collapse(findings) <==> BestOfRuns(findings, kept)
  {
    CollapseKeepsBest(findings);
    if BestOfRuns(findings, kept) {
      OneDivision(findings, kept, Collapse(findings));
    }
  }

  // ---- Findings that stand alone ----------------------------------------------------------------------------

  /** All findings before this one have ended when it starts, and all after it start when it has ended. */
  ghost predicate StandsAlone(findings: seq<Finding>, k: nat)
    requires k < |findings|
  {
    && (forall i :: 0 <= i < k ==> findings[i].end <= findings[k].start)
    && (forall i :: k < i < |findings| ==> findings[k].end <= findings[i].start)
  }

  lemma {:induction false} AloneIsKeptFrom(previous: Finding, rest: seq<Finding>, k: nat)
    requires k < |rest| && previous.end <= rest[k].start && StandsAlone(rest, k)
    ensures rest[k] in CollapseFrom(previous, rest)
    decreases |rest|
  {
    if k == 0 {
      FirstAloneIsKept(rest[0], rest[1..]);
    } else if rest[0].start < previous.end {
      AloneIsKeptFrom(Better(previous, rest[0]), rest[1..], k - 1);
    } else {
      AloneIsKeptFrom(rest[0], rest[1..], k - 1);
    }
  }

  lemma FirstAloneIsKept(first: Finding, rest: seq<Finding>)
    requires forall i :: 0 <= i < |rest| ==> first.end <= rest[i].start
    ensures first in CollapseFrom(first, rest)
  {
  }

  /** A finding that overlaps no other is kept. */
  lemma AloneIsKept(findings: seq<Finding>, k: nat)
    requires k < |findings| && StandsAlone(findings, k)
    ensures findings[k] in Collapse(findings)
  {
    if k == 0 {
      FirstAloneIsKept(findings[0], findings[1..]);
    } else {
      AloneIsKeptFrom(findings[0], findings[1..], k - 1);
    }
  }
}
