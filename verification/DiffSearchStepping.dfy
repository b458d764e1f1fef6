/**
 Stepping through the matches of the diff viewer's search: forward from a match, it visits every
 match once and comes back; backward undoes it.
 */
module DiffSearchStepping {
  import opened Wrappers
  import opened DiffSearch
  import Runs = DiffSearchRuns

  ghost predicate Sorted(matches: seq<Location>) {
    forall i, j :: 0 <= i < j < |matches| ==> Less(matches[i], matches[j]) && !Less(matches[j], matches[i])
  }

  lemma {:induction false} StringIrreflexive(s: string)
    ensures !StringLess(s, s)
  {
    if s != "" {
      StringIrreflexive(s[1..]);
    }
  }

  lemma LessIrreflexive(a: Location)
    ensures !Less(a, a)
  {
    StringIrreflexive(a.path);
  }

  /** A match, located. */
  function Locate(found: Match, documents: seq<Document>): Location
    requires found.documentIndex < |documents|
  {
    Location(found.documentIndex, documents[found.documentIndex].path, found.position)
  }

  lemma {:induction false} LocatedAt(matches: seq<Match>, documents: seq<Document>)
    requires forall i :: 0 <= i < |matches| ==> matches[i].documentIndex < |documents|
    ensures |Located(matches, documents)| == |matches|
    ensures forall i :: 0 <= i < |matches| ==> Located(matches, documents)[i] == Locate(matches[i], documents)
    decreases |matches|
  {
    if matches != [] {
      LocatedAt(matches[1..], documents);
    }
  }

  lemma LocatedIsSorted(matches: seq<Match>, documents: seq<Document>)
    requires Runs.LawfulMatches(matches, Texts(documents))
    ensures Sorted(Located(matches, documents))
  {
    LocatedAt(matches, documents);
    var located := Located(matches, documents);
    forall i, j | 0 <= i < j < |located|
      ensures Less(located[i], located[j]) && !Less(located[j], located[i])
    {
      StringIrreflexive(located[i].path);
      assert located[i] == Locate(matches[i], documents) && located[j] == Locate(matches[j], documents);
    }
  }

  /** In every run the matches are in strictly increasing order. */
  lemma {:induction false} MatchesAreSorted(engine: Engine, w: Runs.World)
    requires Runs.Lawful(engine) && Runs.Good(engine, w) && w.search.Some?
    ensures Sorted(w.search.value.matches)
  {
    var s := w.search.value;
    if s.matched.Some? {
      assert Runs.LawfulMatches(engine.find(s.query, Texts(w.shown)), Texts(w.shown));
      LocatedIsSorted(engine.find(s.query, Texts(w.shown)), w.shown);
    }
  }

  lemma {:induction false} FirstGreaterIs(matches: seq<Location>, reference: Location, k: nat)
    requires k <= |matches|
    requires forall i :: 0 <= i < k ==> !Less(reference, matches[i])
    requires k < |matches| ==> Less(reference, matches[k])
    ensures FirstGreater(matches, reference) == if k < |matches| then Some(matches[k]) else None
    decreases |matches|
  {
    if matches != [] && k > 0 {
      FirstGreaterIs(matches[1..], reference, k - 1);
    }
  }

  lemma {:induction false} LastLessIs(matches: seq<Location>, reference: Location, k: int)
    requires -1 <= k < |matches|
    requires forall i :: k < i < |matches| ==> !Less(matches[i], reference)
    requires k >= 0 ==> Less(matches[k], reference)
    ensures LastLess(matches, reference) == if k >= 0 then Some(matches[k]) else None
    decreases |matches|
  {
    if matches != [] && k < |matches| - 1 {
      LastLessIs(matches[..|matches| - 1], reference, k);
    }
  }

  /** The index `i`, brought around the end of `count` matches. */
  function Around(i: nat, count: nat): nat {
    if i < count then i else i - count
  }

  /** A step from a match leads to the next one, or the one before, around the end. */
  lemma {:induction false} StepsAround(matches: seq<Location>, i: nat)
    requires Sorted(matches) && i < |matches|
    ensures FirstAfter(matches, matches[i]) == Some(matches[Around(i + 1, |matches|)])
    ensures FirstBefore(matches, matches[i]) == Some(matches[Around(i + |matches| - 1, |matches|)])
  {
    LessIrreflexive(matches[i]);
    FirstGreaterIs(matches, matches[i], i + 1);
    LastLessIs(matches, matches[i], i - 1);
  }

  lemma {:induction false} StringTransitive(a: string, b: string, c: string)
    requires StringLess(a, b) && StringLess(b, c)
    ensures StringLess(a, c)
  {
    if a != "" && a[0] == b[0] == c[0] {
      StringTransitive(a[1..], b[1..], c[1..]);
    }
  }

  lemma LessTransitive(a: Location, b: Location, c: Location)
    requires Less(a, b) && Less(b, c)
    ensures Less(a, c)
  {
    if StringLess(a.path, b.path) && StringLess(b.path, c.path) {
      StringTransitive(a.path, b.path, c.path);
    }
  }

  /** The matches after a location are the last ones: those from `k` on. */
  lemma {:induction false} MatchesAfter(matches: seq<Location>, reference: Location) returns (k: nat)
    requires Sorted(matches)
    ensures k <= |matches| && forall i :: 0 <= i < |matches| ==> (Less(reference, matches[i]) <==> k <= i)
    decreases |matches|
  {
    k := |matches|;
    if matches != [] && Less(reference, matches[|matches| - 1]) {
      k := MatchesAfter(matches[..|matches| - 1], reference);
    } else if matches != [] {
      forall i | 0 <= i < |matches| - 1
        ensures !Less(reference, matches[i])
      {
        if Less(reference, matches[i]) {
          LessTransitive(reference, matches[i], matches[|matches| - 1]);
        }
      }
    }
  }

  /** The matches before a location are the first ones: those up to `k`. */
  lemma {:induction false} MatchesBefore(matches: seq<Location>, reference: Location) returns (k: nat)
    requires Sorted(matches)
    ensures k <= |matches| && forall i :: 0 <= i < |matches| ==> (Less(matches[i], reference) <==> i < k)
    decreases |matches|
  {
    k := |matches|;
    if matches != [] && !Less(matches[|matches| - 1], reference) {
      k := MatchesBefore(matches[..|matches| - 1], reference);
    } else if matches != [] {
      forall i | 0 <= i < |matches| - 1
        ensures Less(matches[i], reference)
      {
        LessTransitive(matches[i], matches[|matches| - 1], reference);
      }
    }
  }

  /**
   From any location, a forward step leads to the first match after it, or to the first of all when none is;
   a backward step to the last match before it, or to the last of all.
   */
  lemma {:induction false} StepsToNearest(matches: seq<Location>, reference: Location)
    returns (after: nat, before: nat)
    requires Sorted(matches) && matches != []
    ensures after <= |matches| && forall i :: 0 <= i < |matches| ==> (Less(reference, matches[i]) <==> after <= i)
    ensures FirstAfter(matches, reference) == Some(matches[if after < |matches| then after else 0])
    ensures before <= |matches| && forall i :: 0 <= i < |matches| ==> (Less(matches[i], reference) <==> i < before)
    ensures FirstBefore(matches, reference) == Some(matches[if before > 0 then before - 1 else |matches| - 1])
  {
    after := MatchesAfter(matches, reference);
    FirstGreaterIs(matches, reference, after);
    before := MatchesBefore(matches, reference);
    LastLessIs(matches, reference, before - 1);
  }

  /** Where `n` forward steps from `start` lead. */
  function Forwards(matches: seq<Location>, start: Location, n: nat): Location {
    if n == 0 then start
    else
      var before := Forwards(matches, start, n - 1);
      var next := FirstAfter(matches, before);
      if next.Some? then next.value else before
  }

  lemma {:induction false} ForwardsAt(matches: seq<Location>, i: nat, n: nat)
    requires Sorted(matches) && i < |matches| && n <= |matches|
    ensures Forwards(matches, matches[i], n) == matches[Around(i + n, |matches|)]
    decreases n
  {
    if n > 0 {
      ForwardsAt(matches, i, n - 1);
      StepsAround(matches, Around(i + n - 1, |matches|));
    }
  }

  /** Forward steps from a match reach every match before they come back. */
  lemma {:induction false} ForwardReaches(matches: seq<Location>, i: nat, j: nat)
    requires Sorted(matches) && i < |matches| && j < |matches|
    ensures exists n :: 0 <= n < |matches| && Forwards(matches, matches[i], n) == matches[j]
  {
    ForwardsAt(matches, i, if j >= i then j - i else j + |matches| - i);
  }

  /** They do not reach a match twice, and then they are back. */
  lemma {:induction false} ForwardRepeatsNone(matches: seq<Location>, i: nat, n: nat, m: nat)
    requires Sorted(matches) && i < |matches| && n < m <= |matches|
    ensures Forwards(matches, matches[i], n) == Forwards(matches, matches[i], m) <==> n == 0 && m == |matches|
  {
    ForwardsAt(matches, i, n);
    ForwardsAt(matches, i, m);
    LessIrreflexive(matches[Around(i + n, |matches|)]);
  }

  /** A backward step undoes a forward one, and a forward step a backward one. */
  lemma {:induction false} BackwardUndoesForward(matches: seq<Location>, i: nat)
    requires Sorted(matches) && i < |matches|
    ensures FirstBefore(matches, FirstAfter(matches, matches[i]).value) == Some(matches[i])
    ensures FirstAfter(matches, FirstBefore(matches, matches[i]).value) == Some(matches[i])
  {
    StepsAround(matches, i);
    StepsAround(matches, Around(i + 1, |matches|));
    StepsAround(matches, Around(i + |matches| - 1, |matches|));
  }
}
