/**
  The search is a function of its record: whatever order sets are walked in, the online hook and the offline replay
  make the same exchanges, and a larger budget only adds exchanges at the end.
 */
module SearchUnique {
  import opened Finite
  import opened Selection

  lemma GroupsUnique(g: map<Place, int>, h: map<Place, int>, tokens: set<int>, info: Info, score: Scores, adding: bool)
    requires tokens <= info.Keys && tokens <= score.Keys
    requires Represents(g, tokens, info, score, adding) && Represents(h, tokens, info, score, adding)
    ensures g == h
  {
    SamePlaces(g, h, tokens, info, score, adding);
    SamePlaces(h, g, tokens, info, score, adding);
    assert g.Keys == h.Keys;
  }

  lemma SamePlaces(g: map<Place, int>, h: map<Place, int>, tokens: set<int>, info: Info, score: Scores, adding: bool)
    requires tokens <= info.Keys && tokens <= score.Keys
    requires Represents(g, tokens, info, score, adding) && Represents(h, tokens, info, score, adding)
    ensures forall p :: p in g ==> p in h && g[p] == h[p]
  {
    forall p | p in g
      ensures p in h && g[p] == h[p]
    {
      var t := g[p];
      assert t in tokens && info[t] in h;
      var u := h[p];
      assert u in tokens && info[u] == p;
    }
  }

  // ---------- the trying order ----------

  /** The trying order is a strict total order. */
  lemma EarlierOrder(s: set<int>, info: Info, score: Scores, adding: bool, t: int, u: int)
    requires t in info && u in info && t in score && u in score
    ensures Earlier(s, info, score, adding, t, u) ==> t != u && !Earlier(s, info, score, adding, u, t)
  {
    hide Burden;
  }

  ghost predicate InOrder(r: seq<int>, picks: set<int>, s: set<int>, info: Info, score: Scores, adding: bool)
    requires picks <= info.Keys && picks <= score.Keys && Elements(r) <= picks
  {
    forall i, j :: 0 <= i < j < |r| ==> r[i] in picks && r[j] in picks && Earlier(s, info, score, adding, r[i], r[j])
  }

  lemma OrderDistinct(r: seq<int>, picks: set<int>, s: set<int>, info: Info, score: Scores, adding: bool)
    requires picks <= info.Keys && picks <= score.Keys && Elements(r) <= picks
    requires InOrder(r, picks, s, info, score, adding)
    ensures NoDuplicates(r)
  {
    hide Earlier;
    forall i, j | 0 <= i < j < |r|
      ensures r[i] != r[j]
    {
      EarlierOrder(s, info, score, adding, r[i], r[j]);
    }
  }

  /** Rows in trying order are determined by their set. */
  lemma {:induction false} OrderUnique(a: seq<int>, b: seq<int>, picks: set<int>, s: set<int>, info: Info,
                                       score: Scores, adding: bool)
    requires picks <= info.Keys && picks <= score.Keys && Elements(a) == Elements(b) <= picks
    requires InOrder(a, picks, s, info, score, adding) && InOrder(b, picks, s, info, score, adding)
    ensures a == b
    decreases |a|
  {
    hide Earlier;
    if a == [] || b == [] {
      assert forall q: seq<int> :: q != [] ==> q[0] in Elements(q);
    } else {
      var m, n := |a| - 1, |b| - 1;
      SameLast(a, b, picks, s, info, score, adding);
      OrderDistinct(a, picks, s, info, score, adding);
      OrderDistinct(b, picks, s, info, score, adding);
      Front(a);
      Front(b);
      OrderUnique(a[..m], b[..n], picks, s, info, score, adding);
      assert a == a[..m] + [a[m]] && b == b[..n] + [b[n]];
    }
  }

  lemma Front(a: seq<int>)
    requires a != [] && NoDuplicates(a)
    ensures Elements(a[..|a| - 1]) == Elements(a) - {a[|a| - 1]}
  {
    assert a == a[..|a| - 1] + [a[|a| - 1]];
  }

  lemma SameLast(a: seq<int>, b: seq<int>, picks: set<int>, s: set<int>, info: Info, score: Scores, adding: bool)
    requires picks <= info.Keys && picks <= score.Keys && Elements(a) == Elements(b) <= picks && a != [] && b != []
    requires InOrder(a, picks, s, info, score, adding) && InOrder(b, picks, s, info, score, adding)
    ensures a[|a| - 1] == b[|b| - 1]
  {
    hide Earlier;
    var x, y := a[|a| - 1], b[|b| - 1];
    assert x in Elements(b) && y in Elements(a);
    var i :| 0 <= i < |b| && b[i] == x;
    var j :| 0 <= j < |a| && a[j] == y;
    EarlierOrder(s, info, score, adding, x, y);
  }

  /** Of two sets of the same size, what one lacks the other makes up for. */
  lemma Missing(b: set<int>, a: set<int>, x: int) returns (y: int)
    requires |b| == |a| && x in a && x !in b
    ensures y in b && y !in a
  {
    if b - a == {} {
      assert forall z :: z in b ==> z in a || z in b - a;
      SubsetCard(b, a);
      assert false;
    }
    y := Pick(b - a);
  }

  /** There is only one list of the first sixteen. */
  lemma ShortlistUnique(a: seq<int>, b: seq<int>, picks: set<int>, s: set<int>, info: Info, score: Scores, adding: bool)
    requires picks <= info.Keys && picks <= score.Keys && Elements(a) <= picks && Elements(b) <= picks
    requires TriesFirst(a, picks, s, info, score, adding) && TriesFirst(b, picks, s, info, score, adding)
    ensures a == b
  {
    hide Earlier;
    OrderDistinct(a, picks, s, info, score, adding);
    OrderDistinct(b, picks, s, info, score, adding);
    NoDuplicatesCard(a);
    NoDuplicatesCard(b);
    SubsetCard(Elements(a), picks);
    SubsetCard(Elements(b), picks);
    forall x | x in Elements(a)
      ensures x in Elements(b)
    {
      if x !in Elements(b) {
        var y := Missing(Elements(b), Elements(a), x);
        EarlierOrder(s, info, score, adding, x, y);
      }
    }
    SubsetCard(Elements(a), Elements(b));
    OrderUnique(a, b, picks, s, info, score, adding);
  }

  // ---------- one exchange ----------

  /** Two best moves of the same candidates are the same move. */
  lemma BestUnique(b: Choice, c: Choice, s: set<int>, info: Info, score: Scores, removals: seq<int>,
                   additions: seq<int>)
    requires Known(removals, info, score) && Known(additions, info, score)
    requires BestOf(b, s, info, score, removals, additions, |removals|, 0)
    requires BestOf(c, s, info, score, removals, additions, |removals|, 0)
    ensures b == c
  {
    hide MoveOf;
  }

  lemma SideUnique(a: seq<int>, b: seq<int>, tokens: set<int>, s: set<int>, info: Info, score: Scores, adding: bool)
    requires tokens <= info.Keys && tokens <= score.Keys
    requires Shortlisted(a, tokens, s, info, score, adding) && Shortlisted(b, tokens, s, info, score, adding)
    ensures a == b
  {
    hide TriesFirst, Represents;
    var g :| ShortlistOf(a, g, tokens, s, info, score, adding);
    var h :| ShortlistOf(b, h, tokens, s, info, score, adding);
    GroupsUnique(g, h, tokens, info, score, adding);
    ShortlistUnique(a, b, Picks(g), s, info, score, adding);
  }

  /** The preferences ask for one exchange at most. */
  lemma GreedyUnique(b: Choice, c: Choice, removable: set<int>, available: set<int>, s: set<int>, info: Info,
                     score: Scores)
    requires removable <= info.Keys && removable <= score.Keys && available <= info.Keys && available <= score.Keys
    requires Greedy(b, removable, available, s, info, score) && Greedy(c, removable, available, s, info, score)
    ensures b == c
  {
    hide Shortlisted, BestOf;
    var r, a :| Shortlisted(r, removable, s, info, score, false) && Shortlisted(a, available, s, info, score, true) &&
      BestOf(b, s, info, score, r, a, |r|, 0);
    var q, d :| Shortlisted(q, removable, s, info, score, false) && Shortlisted(d, available, s, info, score, true) &&
      BestOf(c, s, info, score, q, d, |q|, 0);
    SideUnique(r, q, removable, s, info, score, false);
    SideUnique(a, d, available, s, info, score, true);
    BestUnique(b, c, s, info, score, r, a);
  }

  lemma AskedUnique(p: Problem, ex: seq<Exchange>, x: Exchange, y: Exchange)
    requires p.Ok() && Asked(p, ex, x) && Asked(p, ex, y)
    ensures x == y
  {
    hide Greedy, Problem.Rem, Problem.Ava, Problem.Misses;
    var b :| Greedy(b, p.Rem(ex), p.Ava(ex), p.Misses(ex), p.info, p.score) && b.Best? && b.move.drop == x.drop &&
      b.move.add == x.add;
    var c :| Greedy(c, p.Rem(ex), p.Ava(ex), p.Misses(ex), p.info, p.score) && c.Best? && c.move.drop == y.drop &&
      c.move.add == y.add;
    GreedyUnique(b, c, p.Rem(ex), p.Ava(ex), p.Misses(ex), p.info, p.score);
  }

  lemma AskedNotStopped(p: Problem, ex: seq<Exchange>, x: Exchange)
    requires p.Ok() && Asked(p, ex, x)
    ensures !Stopped(p, ex)
  {
    hide Greedy, Problem.Rem, Problem.Ava, Problem.Misses;
    if Stopped(p, ex) {
      var b :| Greedy(b, p.Rem(ex), p.Ava(ex), p.Misses(ex), p.info, p.score) && b.Best? && b.move.drop == x.drop &&
        b.move.add == x.add;
      GreedyUnique(b, NoMove, p.Rem(ex), p.Ava(ex), p.Misses(ex), p.info, p.score);
    }
  }

  // ---------- the whole search ----------

  lemma {:induction false} SamePrefix(p: Problem, a: seq<Exchange>, b: seq<Exchange>, n: nat)
    requires p.Ok() && n <= |a| && n <= |b|
    requires forall i :: 0 <= i < |a| ==> Step(p, a, i)
    requires forall i :: 0 <= i < |b| ==> Step(p, b, i)
    ensures a[..n] == b[..n]
  {
    hide Step, Asked;
    if n > 0 {
      SamePrefix(p, a, b, n - 1);
      StepAsks(p, a, n - 1);
      StepAsks(p, b, n - 1);
      AskedUnique(p, a[..n - 1], a[n - 1], b[n - 1]);
      assert a[..n] == a[..n - 1] + [a[n - 1]] && b[..n] == b[..n - 1] + [b[n - 1]];
    }
  }

  /** More budget continues the same exchanges; so the same budget gives the same exchanges. */
  lemma MoreBudgetContinues(p: Problem, small: nat, a: seq<Exchange>, large: nat, b: seq<Exchange>)
    requires p.Ok() && small <= large && SearchResult(p, small, a) && SearchResult(p, large, b)
    ensures |a| <= |b| && b[..|a|] == a
    ensures small == large ==> a == b
    ensures |a| < small ==> a == b
  {
    hide Step, Stopped, Asked, Steepest, FewPlaces, Paired;
    var n := if |a| <= |b| then |a| else |b|;
    SamePrefix(p, a, b, n);
    assert a[..|a|] == a && b[..|b|] == b;
    if |b| < |a| {
      StepAsks(p, a, |b|);
      AskedNotStopped(p, b, a[|b|]);
    }
    if |a| < |b| && |a| < small {
      StepAsks(p, b, |a|);
      AskedNotStopped(p, a, b[|a|]);
    }
  }

  lemma StepAsks(p: Problem, ex: seq<Exchange>, i: nat)
    requires p.Ok() && i < |ex| && Step(p, ex, i)
    ensures Asked(p, ex[..i], ex[i])
  {
  }
}
