/**
  PPA-aware selection (scripts/ppa_selection.py): misses of the native selection are swapped for other misses as long
  as that lowers the sum of squared loads on channels, chips, dies and planes.
 */
module Selection {
  import opened Finite
  import opened Sums

  /** Where a row's flash page lies. */
  datatype Place = Place(channel: nat, chip: nat, die: nat, plane: nat)

  /** A shared resource: a channel, a chip of it, a die of that, a plane of that. */
  datatype Resource =
    | Channel(c: nat)
    | Chip(c: nat, p: nat)
    | Die(c: nat, p: nat, d: nat)
    | Plane(c: nat, p: nat, d: nat, l: nat)

  function Resources(p: Place): set<Resource> {
    {Channel(p.channel), Chip(p.channel, p.chip), Die(p.channel, p.chip, p.die),
     Plane(p.channel, p.chip, p.die, p.plane)}
  }

  type Info = map<int, Place>

  // ---------- pressure and objective ----------

  /** The rows of s that lie on a resource. */
  ghost function Users(s: set<int>, info: Info, r: Resource): set<int> {
    match r
    case Channel(c) => set t | t in s && t in info && info[t].channel == c
    case Chip(c, p) => set t | t in s && t in info && info[t].channel == c && info[t].chip == p
    case Die(c, p, d) =>
      set t | t in s && t in info && info[t].channel == c && info[t].chip == p && info[t].die == d
    case Plane(c, p, d, l) => set t | t in s && t in info && info[t] == Place(c, p, d, l)
  }

  /** A row lies on exactly its four resources. */
  lemma UsersIff(s: set<int>, info: Info, r: Resource)
    ensures Users(s, info, r) == set t | t in s && t in info && r in Resources(info[t])
  {
  }

  lemma BusyHas(s: set<int>, info: Info, t: int)
    requires t in s && t in info
    ensures Resources(info[t]) <= Busy(s, info)
  {
  }

  ghost function Load(s: set<int>, info: Info, r: Resource): nat {
    |Users(s, info, r)|
  }

  /** Every channel, chip, die and plane some row of s lies on. */
  ghost function Busy(s: set<int>, info: Info): set<Resource> {
    (set t | t in s && t in info :: Channel(info[t].channel)) +
    (set t | t in s && t in info :: Chip(info[t].channel, info[t].chip)) +
    (set t | t in s && t in info :: Die(info[t].channel, info[t].chip, info[t].die)) +
    (set t | t in s && t in info :: Plane(info[t].channel, info[t].chip, info[t].die, info[t].plane))
  }

  ghost function Square(s: set<int>, info: Info): Resource -> int {
    r => Load(s, info, r) * Load(s, info, r)
  }

  /** The sum of squared loads of the rows in s, computed from scratch. */
  ghost function Cost(s: set<int>, info: Info): int {
    Sum(Busy(s, info), Square(s, info))
  }

  type Loads = map<Resource, int>

  function Get(loads: Loads, r: Resource): int {
    if r in loads then loads[r] else 0
  }

  /** The counters agree with the rows they stand for. */
  ghost predicate Tracks(loads: Loads, s: set<int>, info: Info) {
    forall r :: Get(loads, r) == Load(s, info, r)
  }

  lemma IdleIsZero(s: set<int>, info: Info, r: Resource)
    requires r !in Busy(s, info)
    ensures Load(s, info, r) == 0
  {
    UsersIff(s, info, r);
    forall t | t in s && t in info
      ensures r !in Resources(info[t])
    {
      BusyHas(s, info, t);
    }
    hide Users, Busy, Resources;
    assert Users(s, info, r) == {};
  }

  /** Cost may be summed over any set that covers the busy resources. */
  lemma CostOver(s: set<int>, info: Info, keys: set<Resource>)
    requires Busy(s, info) <= keys
    ensures Sum(keys, Square(s, info)) == Cost(s, info)
  {
    forall r | r in keys && r !in Busy(s, info)
      ensures Square(s, info)(r) == 0
    {
      IdleIsZero(s, info, r);
    }
    SumSupport(Busy(s, info), keys, Square(s, info));
  }

  ghost function LoadSquare(loads: Loads): Resource -> int {
    r => Get(loads, r) * Get(loads, r)
  }

  /** objective(loads) of counters that track s is the cost of s. */
  lemma ObjectiveIsCost(loads: Loads, s: set<int>, info: Info)
    requires Tracks(loads, s, info)
    ensures Sum(loads.Keys, LoadSquare(loads)) == Cost(s, info)
  {
    var keys := loads.Keys + Busy(s, info);
    CostOver(s, info, keys);
    SumSame(keys, LoadSquare(loads), Square(s, info));
    SumSupport(loads.Keys, keys, LoadSquare(loads));
  }

  // ---------- one exchange ----------

  /** How much a resource's load changes when drop is swapped for new. */
  function Change(drop: Place, add: Place, r: Resource): int {
    (if r in Resources(add) then 1 else 0) - (if r in Resources(drop) then 1 else 0)
  }

  ghost function DeltaTerm(loads: Loads, drop: Place, add: Place): Resource -> int {
    r => 2 * Get(loads, r) * Change(drop, add, r) + Change(drop, add, r) * Change(drop, add, r)
  }

  /** The change of the objective as the search computes it, from the touched resources alone. */
  ghost function Delta(loads: Loads, drop: Place, add: Place): int {
    Sum(Resources(drop) + Resources(add), DeltaTerm(loads, drop, add))
  }

  ghost function Swapped(s: set<int>, drop: int, add: int): set<int> {
    s - {drop} + {add}
  }

  lemma LoadAfterSwap(s: set<int>, info: Info, drop: int, add: int, r: Resource)
    requires drop in s && add !in s && drop in info && add in info
    ensures Load(Swapped(s, drop, add), info, r) == Load(s, info, r) + Change(info[drop], info[add], r)
  {
    LoadRemove(s, info, drop, r);
    LoadAdd(s - {drop}, info, add, r);
  }

  lemma LoadRemove(s: set<int>, info: Info, t: int, r: Resource)
    requires t in s && t in info
    ensures Load(s - {t}, info, r) == Load(s, info, r) - (if r in Resources(info[t]) then 1 else 0)
  {
    UsersIff(s, info, r);
    UsersIff(s - {t}, info, r);
    hide Resources, Users;
    var before, after := Users(s, info, r), Users(s - {t}, info, r);
    if r in Resources(info[t]) {
      assert after == before - {t};
    } else {
      assert after == before;
    }
  }

  lemma LoadAdd(s: set<int>, info: Info, t: int, r: Resource)
    requires t !in s && t in info
    ensures Load(s + {t}, info, r) == Load(s, info, r) + (if r in Resources(info[t]) then 1 else 0)
  {
    UsersIff(s, info, r);
    UsersIff(s + {t}, info, r);
    hide Resources, Users;
    var before, after := Users(s, info, r), Users(s + {t}, info, r);
    if r in Resources(info[t]) {
      assert after == before + {t};
    } else {
      assert after == before;
    }
  }

  /** The incrementally computed delta is the true change of the cost. */
  lemma DeltaIsTrue(loads: Loads, s: set<int>, info: Info, drop: int, add: int)
    requires Tracks(loads, s, info) && drop in s && add !in s && drop in info && add in info
    ensures Cost(Swapped(s, drop, add), info) == Cost(s, info) + Delta(loads, info[drop], info[add])
  {
    var t, term := Swapped(s, drop, add), DeltaTerm(loads, info[drop], info[add]);
    var touched := Resources(info[drop]) + Resources(info[add]);
    var keys := Busy(s, info) + Busy(t, info) + touched;
    CostOver(s, info, keys);
    CostOver(t, info, keys);
    forall r | r in keys
      ensures Square(t, info)(r) == Square(s, info)(r) + term(r)
      ensures r !in touched ==> term(r) == 0
    {
      TermIsTrue(loads, s, info, drop, add, r);
    }
    hide Square, DeltaTerm, Busy, Resources;
    SumLinear(keys, Square(t, info), Square(s, info), term);
    SumSupport(touched, keys, term);
  }

  lemma TermIsTrue(loads: Loads, s: set<int>, info: Info, drop: int, add: int, r: Resource)
    requires Tracks(loads, s, info) && drop in s && add !in s && drop in info && add in info
    ensures var t, term := Swapped(s, drop, add), DeltaTerm(loads, info[drop], info[add]);
      && Square(t, info)(r) == Square(s, info)(r) + term(r)
      && (r !in Resources(info[drop]) + Resources(info[add]) ==> term(r) == 0)
  {
    hide Load, Resources;
    LoadAfterSwap(s, info, drop, add, r);
    SquareOfSum(Load(s, info, r), Change(info[drop], info[add], r));
  }

  lemma SquareOfSum(a: int, b: int)
    ensures (a + b) * (a + b) == a * a + (2 * a * b + b * b)
  {
  }

  // ---------- counters ----------

  /** Counter update by one row's resources. */
  function Bump(loads: Loads, p: Place, n: int): (r: Loads)
    ensures forall k :: Get(r, k) == Get(loads, k) + (if k in Resources(p) then n else 0)
  {
    var a, b := Channel(p.channel), Chip(p.channel, p.chip);
    var c, d := Die(p.channel, p.chip, p.die), Plane(p.channel, p.chip, p.die, p.plane);
    loads[a := Get(loads, a) + n][b := Get(loads, b) + n][c := Get(loads, c) + n][d := Get(loads, d) + n]
  }

  /** pressure: counted row by row. */
  method Pressure(ids: set<int>, info: Info) returns (loads: Loads)
    requires ids <= info.Keys
    ensures Tracks(loads, ids, info)
  {
    loads := map[];
    var rest := ids;
    while rest != {}
      invariant rest <= ids && Tracks(loads, ids - rest, info)
      decreases |rest|
    {
      var t := Choose(rest);
      forall r
        ensures Load(ids - (rest - {t}), info, r) ==
          Load(ids - rest, info, r) + (if r in Resources(info[t]) then 1 else 0)
      {
        assert ids - (rest - {t}) == ids - rest + {t};
        LoadAdd(ids - rest, info, t, r);
      }
      loads := Bump(loads, info[t], 1);
      rest := rest - {t};
    }
    assert ids - rest == ids;
  }

  /** objective: the sum of squares of the counters. */
  method Objective(loads: Loads) returns (v: int)
    ensures v == Sum(loads.Keys, LoadSquare(loads))
  {
    v := 0;
    var rest := loads.Keys;
    while rest != {}
      invariant rest <= loads.Keys && v + Sum(rest, LoadSquare(loads)) == Sum(loads.Keys, LoadSquare(loads))
      decreases |rest|
    {
      var r := Choose(rest);
      SumRemove(rest, LoadSquare(loads), r);
      v := v + loads[r] * loads[r];
      rest := rest - {r};
    }
  }

  /** The delta of one exchange, summed over the resources it touches. */
  method DeltaOf(loads: Loads, p: Place, q: Place) returns (v: int)
    ensures v == Delta(loads, p, q)
  {
    v := 0;
    var rest := Resources(p) + Resources(q);
    while rest != {}
      invariant v + Sum(rest, DeltaTerm(loads, p, q)) == Delta(loads, p, q)
      decreases |rest|
    {
      var r := Choose(rest);
      SumRemove(rest, DeltaTerm(loads, p, q), r);
      var n := Change(p, q, r);
      v := v + (2 * Get(loads, r) * n + n * n);
      rest := rest - {r};
    }
  }

  // ---------- candidates ----------

  datatype Rank = Rank(a: int, b: real, c: int)

  /** Tuple order. */
  predicate Less(x: Rank, y: Rank) {
    x.a < y.a || (x.a == y.a && (x.b < y.b || (x.b == y.b && x.c < y.c)))
  }

  ghost predicate SortedBy(s: seq<int>, key: map<int, Rank>)
  {
    && (forall i :: 0 <= i < |s| ==> s[i] in key)
    && (forall i, j :: 0 <= i < j < |s| ==> Less(key[s[i]], key[s[j]]))
  }

  /** sorted(tokens, key=...), for keys that end in the token itself. */
  method SortBy(tokens: set<int>, key: map<int, Rank>) returns (r: seq<int>)
    requires tokens <= key.Keys && forall t :: t in key ==> key[t].c == t
    ensures SortedBy(r, key) && Elements(r) == tokens
  {
    r := [];
    var rest := tokens;
    while rest != {}
      invariant rest <= tokens && SortedBy(r, key) && Elements(r) == tokens - rest
      decreases |rest|
    {
      var t := Choose(rest);
      assert t !in Elements(r);
      r := InsertBy(r, t, key);
      rest := rest - {t};
    }
  }

  method InsertBy(s: seq<int>, t: int, key: map<int, Rank>) returns (r: seq<int>)
    requires SortedBy(s, key) && t in key && t !in s && forall u :: u in key ==> key[u].c == u
    ensures SortedBy(r, key) && Elements(r) == Elements(s) + {t}
  {
    var k := 0;
    while k < |s| && Less(key[s[k]], key[t])
      invariant 0 <= k <= |s| && forall i :: 0 <= i < k ==> Less(key[s[i]], key[t])
    {
      k := k + 1;
    }
    r := s[..k] + [t] + s[k..];
    InsertedSorted(s, t, key, k);
  }

  lemma InsertedSorted(s: seq<int>, t: int, key: map<int, Rank>, k: nat)
    requires SortedBy(s, key) && t in key && t !in s && (forall u :: u in key ==> key[u].c == u) && k <= |s|
    requires (forall i :: 0 <= i < k ==> Less(key[s[i]], key[t])) && (k < |s| ==> !Less(key[s[k]], key[t]))
    ensures SortedBy(s[..k] + [t] + s[k..], key) && Elements(s[..k] + [t] + s[k..]) == Elements(s) + {t}
  {
    assert s == s[..k] + s[k..];
    forall i | k <= i < |s|
      ensures Less(key[t], key[s[i]])
    {
      var u := s[k];
      assert u in s && u in key && u != t;
      assert key[u].c == u && key[t].c == t;
      assert k < i ==> Less(key[s[k]], key[s[i]]);
    }
    hide Less;
    var r := s[..k] + [t] + s[k..];
    assert forall i :: 0 <= i < |r| ==> r[i] == if i < k then s[i] else if i == k then t else s[i - 1];
  }

  lemma SortedDistinct(s: seq<int>, key: map<int, Rank>)
    requires SortedBy(s, key)
    ensures NoDuplicates(s)
  {
    forall i, j | 0 <= i < j < |s|
      ensures s[i] != s[j]
    {
      assert Less(key[s[i]], key[s[j]]);
    }
  }

  /** The first sixteen. */
  function Shortlist(s: seq<int>): seq<int> {
    if |s| <= 16 then s else s[..16]
  }

  type Scores = map<int, real>

  /** Removing prefers the worse score, then the larger token; adding the better score, then the smaller token. */
  predicate Preferred(score: Scores, adding: bool, t: int, u: int)
    requires t in score && u in score
  {
    if adding then score[t] > score[u] || (score[t] == score[u] && t < u)
    else score[t] < score[u] || (score[t] == score[u] && t > u)
  }

  /**
    One representative per place: to remove, the row with the lowest score there, and of these the largest token; to
    add, the row with the highest score, and of these the smallest token.
   */
  ghost predicate Represents(groups: map<Place, int>, tokens: set<int>, info: Info, score: Scores, adding: bool)
    requires tokens <= info.Keys && tokens <= score.Keys
  {
    && (forall p :: p in groups ==> groups[p] in tokens && info[groups[p]] == p)
    && (forall t :: t in tokens ==> info[t] in groups)
    && (forall t :: t in tokens && t != groups[info[t]] ==>
          var best := groups[info[t]];
          if adding then score[t] < score[best] || (score[t] == score[best] && best < t)
          else score[t] > score[best] || (score[t] == score[best] && best > t))
  }

  method Group(tokens: set<int>, info: Info, score: Scores, adding: bool) returns (groups: map<Place, int>)
    requires tokens <= info.Keys && tokens <= score.Keys
    ensures Represents(groups, tokens, info, score, adding)
  {
    groups := map[];
    var rest := tokens;
    while rest != {}
      invariant rest <= tokens && Represents(groups, tokens - rest, info, score, adding)
      decreases |rest|
    {
      var t := Choose(rest);
      var p := info[t];
      if p !in groups || Preferred(score, adding, t, groups[p]) {
        groups := groups[p := t];
      }
      rest := rest - {t};
    }
    assert tokens - rest == tokens;
  }

  /** Sum of (2 * load + plus) over a place's four resources. */
  function Weight(loads: Loads, p: Place, plus: int): int {
    var outer := Get(loads, Channel(p.channel)) + Get(loads, Chip(p.channel, p.chip));
    var inner := Get(loads, Die(p.channel, p.chip, p.die)) + Get(loads, Plane(p.channel, p.chip, p.die, p.plane));
    2 * (outer + inner) + 4 * plus
  }

  ghost function Picks(groups: map<Place, int>): set<int> {
    set p | p in groups :: groups[p]
  }

  /** The order in which representatives are tried: heaviest removals, or lightest additions, first. */
  function TryKey(loads: Loads, info: Info, score: Scores, adding: bool, t: int): (k: Rank)
    requires t in info && t in score
    ensures k.c == t
  {
    if adding then Rank(Weight(loads, info[t], 1), -score[t], t) else Rank(-Weight(loads, info[t], -1), score[t], t)
  }

  function Keys(tokens: set<int>, loads: Loads, info: Info, score: Scores, adding: bool): (key: map<int, Rank>)
    requires tokens <= info.Keys && tokens <= score.Keys
    ensures key.Keys == tokens
    ensures forall t :: t in key ==> key[t] == TryKey(loads, info, score, adding, t) && key[t].c == t
  {
    map t | t in tokens :: TryKey(loads, info, score, adding, t)
  }

  /** The rows of s on a place's channel, on its chip, on its die and on its plane. */
  ghost function Burden(s: set<int>, info: Info, p: Place): int {
    Load(s, info, Channel(p.channel)) + Load(s, info, Chip(p.channel, p.chip)) +
    Load(s, info, Die(p.channel, p.chip, p.die)) + Load(s, info, Plane(p.channel, p.chip, p.die, p.plane))
  }

  /**
    The trying order: removals from the most burdened place first, then the lower score; additions to the least
    burdened place first, then the higher score; always the smaller token last.
   */
  ghost predicate Earlier(s: set<int>, info: Info, score: Scores, adding: bool, t: int, u: int)
    requires t in info && u in info && t in score && u in score
  {
    var x, y := Burden(s, info, info[t]), Burden(s, info, info[u]);
    if adding then x < y || (x == y && (score[t] > score[u] || (score[t] == score[u] && t < u)))
    else x > y || (x == y && (score[t] < score[u] || (score[t] == score[u] && t < u)))
  }

  /** r lists, in trying order, the at most sixteen members of picks that come first. */
  ghost predicate TriesFirst(r: seq<int>, picks: set<int>, s: set<int>, info: Info, score: Scores, adding: bool)
    requires picks <= info.Keys && picks <= score.Keys && Elements(r) <= picks
  {
    && (forall i, j :: 0 <= i < j < |r| ==>
          r[i] in picks && r[j] in picks && Earlier(s, info, score, adding, r[i], r[j]))
    && (forall t, u :: t in picks - Elements(r) && u in Elements(r) ==> Earlier(s, info, score, adding, u, t))
    && |r| <= 16 && (|r| < 16 ==> Elements(r) == picks)
  }

  /** The sort keys put the rows in the trying order. */
  lemma KeyOrder(loads: Loads, s: set<int>, info: Info, score: Scores, adding: bool, t: int, u: int)
    requires t in info && u in info && t in score && u in score && Tracks(loads, s, info)
    ensures Less(TryKey(loads, info, score, adding, t), TryKey(loads, info, score, adding, u)) <==>
            Earlier(s, info, score, adding, t, u)
  {
    hide Load;
  }

  /** The representatives worth trying. */
  method Candidates(groups: map<Place, int>, loads: Loads, info: Info, score: Scores, adding: bool, ghost s: set<int>)
    returns (r: seq<int>)
    requires Picks(groups) <= info.Keys && Picks(groups) <= score.Keys && Tracks(loads, s, info)
    ensures Elements(r) <= Picks(groups) && TriesFirst(r, Picks(groups), s, info, score, adding)
    ensures |groups| <= 16 ==> Elements(r) == Picks(groups)
  {
    hide Tracks, TriesFirst, TryKey;
    var tokens: set<int> := set p | p in groups :: groups[p];
    var key := Keys(tokens, loads, info, score, adding);
    var sorted := SortBy(tokens, key);
    SortedDistinct(sorted, key);
    NoDuplicatesCard(sorted);
    PicksCard(groups);
    r := Shortlist(sorted);
    ShortlistFirst(sorted, tokens, loads, s, info, score, adding);
  }

  lemma ShortlistFirst(sorted: seq<int>, tokens: set<int>, loads: Loads, s: set<int>, info: Info, score: Scores,
                       adding: bool)
    requires tokens <= info.Keys && tokens <= score.Keys && Elements(sorted) == tokens
    requires Tracks(loads, s, info) && SortedBy(sorted, Keys(tokens, loads, info, score, adding))
    ensures Elements(Shortlist(sorted)) <= tokens && TriesFirst(Shortlist(sorted), tokens, s, info, score, adding)
    ensures |sorted| <= 16 ==> Elements(Shortlist(sorted)) == tokens
  {
    hide Tracks, TryKey, Less, Earlier;
    var r, key := Shortlist(sorted), Keys(tokens, loads, info, score, adding);
    assert forall m :: 0 <= m < |r| ==> r[m] == sorted[m];
    forall i, j | 0 <= i < j < |sorted|
      ensures sorted[i] in tokens && sorted[j] in tokens && Earlier(s, info, score, adding, sorted[i], sorted[j])
    {
      KeyOrder(loads, s, info, score, adding, sorted[i], sorted[j]);
    }
    forall t, u | t in tokens - Elements(r) && u in Elements(r)
      ensures Earlier(s, info, score, adding, u, t)
    {
      assert t in Elements(sorted);
      var i :| 0 <= i < |sorted| && sorted[i] == t;
      var j :| 0 <= j < |r| && r[j] == u;
      assert sorted[j] == u;
    }
  }

  lemma PicksCard(groups: map<Place, int>)
    ensures |Picks(groups)| <= |groups|
  {
    ImageCard(groups, groups.Keys);
    assert Picks(groups) == set p | p in groups.Keys :: groups[p];
  }

  lemma {:induction false} ImageCard(groups: map<Place, int>, ps: set<Place>)
    requires ps <= groups.Keys
    ensures |set p | p in ps :: groups[p]| <= |ps|
    decreases |ps|
  {
    if ps != {} {
      var q := Pick(ps);
      ImageCard(groups, ps - {q});
      var image, rest := set p | p in ps :: groups[p], set p | p in ps - {q} :: groups[p];
      assert image == rest + {groups[q]};
    }
  }

  // ---------- choosing an exchange ----------

  /** A possible exchange and how it is ranked: change of the objective, lost score, tokens. */
  datatype Move = Move(delta: int, loss: real, drop: int, add: int)

  predicate MoveLess(x: Move, y: Move) {
    x.delta < y.delta || (x.delta == y.delta &&
      (x.loss < y.loss || (x.loss == y.loss && (x.drop < y.drop || (x.drop == y.drop && x.add < y.add)))))
  }

  /** The move as it is ranked: the change of the cost of s, and the score given up. */
  ghost function MoveOf(s: set<int>, info: Info, score: Scores, drop: int, add: int): Move
    requires drop in score && add in score
  {
    Move(Cost(Swapped(s, drop, add), info) - Cost(s, info), score[drop] - score[add], drop, add)
  }

  datatype Choice = NoMove | Best(move: Move)

  ghost predicate Known(tokens: seq<int>, info: Info, score: Scores) {
    forall i :: 0 <= i < |tokens| ==> tokens[i] in info && tokens[i] in score
  }

  /**
    b is the least improving move among removals[..m] x additions plus removals[m] x additions[..n], if there is one.
   */
  ghost predicate BestOf(b: Choice, s: set<int>, info: Info, score: Scores, removals: seq<int>, additions: seq<int>,
                         m: nat, n: nat)
    requires Known(removals, info, score) && Known(additions, info, score) && m <= |removals| && n <= |additions|
  {
    && (b.Best? ==> b.move.delta < 0 && exists i, j ::
          0 <= i < |removals| && 0 <= j < |additions| &&
          b.move == MoveOf(s, info, score, removals[i], additions[j]))
    && (forall i, j :: 0 <= i < |removals| && 0 <= j < |additions| && (i < m || (i == m && j < n)) ==>
          NotBetter(MoveOf(s, info, score, removals[i], additions[j]), b))
  }

  /**
    A considered move does not lower the cost, or b lowers it more, or as much for less lost score, or for the same
    lost score with a smaller dropped token, or with the same and an added token not larger.
   */
  ghost predicate NotBetter(x: Move, b: Choice) {
    x.delta >= 0 ||
    (b.Best? && (b.move.delta < x.delta || (b.move.delta == x.delta &&
      (b.move.loss < x.loss || (b.move.loss == x.loss &&
        (b.move.drop < x.drop || (b.move.drop == x.drop && b.move.add <= x.add)))))))
  }

  /** The better of the best so far and a new move, if that improves. */
  function Better(b: Choice, x: Move): Choice {
    if x.delta < 0 && (b.NoMove? || MoveLess(x, b.move)) then Best(x) else b
  }

  lemma BetterKeeps(b: Choice, s: set<int>, info: Info, score: Scores, removals: seq<int>, additions: seq<int>, m: nat,
                    n: nat)
    requires Known(removals, info, score) && Known(additions, info, score) && m < |removals| && n < |additions|
    requires BestOf(b, s, info, score, removals, additions, m, n)
    ensures var x := MoveOf(s, info, score, removals[m], additions[n]);
      BestOf(Better(b, x), s, info, score, removals, additions, m, n + 1)
  {
    hide MoveOf, NotBetter, MoveLess;
    var x := MoveOf(s, info, score, removals[m], additions[n]);
    forall i, j | 0 <= i < |removals| && 0 <= j < |additions| && (i < m || (i == m && j < n + 1))
      ensures NotBetter(MoveOf(s, info, score, removals[i], additions[j]), Better(b, x))
    {
      NotBetterAfter(MoveOf(s, info, score, removals[i], additions[j]), x, b);
    }
  }

  lemma NotBetterAfter(y: Move, x: Move, b: Choice)
    requires y == x || NotBetter(y, b)
    ensures NotBetter(y, Better(b, x))
  {
  }

  method ChooseMove(loads: Loads, info: Info, score: Scores, removals: seq<int>, additions: seq<int>, ghost s: set<int>)
    returns (b: Choice)
    requires Known(removals, info, score) && Known(additions, info, score) && Tracks(loads, s, info)
    requires Elements(removals) <= s && Elements(additions) !! s
    ensures BestOf(b, s, info, score, removals, additions, |removals|, 0)
  {
    hide Delta, MoveLess, NotBetter, Tracks, Cost, Swapped;
    b := NoMove;
    for m := 0 to |removals|
      invariant BestOf(b, s, info, score, removals, additions, m, 0)
    {
      for n := 0 to |additions|
        invariant BestOf(b, s, info, score, removals, additions, m, n)
      {
        var drop, add := removals[m], additions[n];
        var delta := DeltaOf(loads, info[drop], info[add]);
        assert drop in Elements(removals) && add in Elements(additions);
        DeltaIsTrue(loads, s, info, drop, add);
        BetterKeeps(b, s, info, score, removals, additions, m, n);
        b := Better(b, Move(delta, score[drop] - score[add], drop, add));
      }
      NextRow(b, s, info, score, removals, additions, m);
    }
  }

  lemma NextRow(b: Choice, s: set<int>, info: Info, score: Scores, removals: seq<int>, additions: seq<int>, m: nat)
    requires Known(removals, info, score) && Known(additions, info, score) && m < |removals|
    requires BestOf(b, s, info, score, removals, additions, m, |additions|)
    ensures BestOf(b, s, info, score, removals, additions, m + 1, 0)
  {
    hide MoveOf, NotBetter;
  }

  /**
    b is the move the documented preferences ask for when the misses are s: among one representative per place, the
    sixteen most promising on each side.
   */
  ghost predicate Greedy(b: Choice, removable: set<int>, available: set<int>, s: set<int>, info: Info, score: Scores)
    requires removable <= info.Keys && removable <= score.Keys && available <= info.Keys && available <= score.Keys
  {
    exists removals: seq<int>, additions: seq<int> ::
      && Shortlisted(removals, removable, s, info, score, false)
      && Shortlisted(additions, available, s, info, score, true)
      && BestOf(b, s, info, score, removals, additions, |removals|, 0)
  }

  ghost predicate Shortlisted(r: seq<int>, tokens: set<int>, s: set<int>, info: Info, score: Scores, adding: bool)
    requires tokens <= info.Keys && tokens <= score.Keys
    ensures Shortlisted(r, tokens, s, info, score, adding) ==> Known(r, info, score)
  {
    Known(r, info, score) && exists groups :: ShortlistOf(r, groups, tokens, s, info, score, adding)
  }

  ghost predicate ShortlistOf(r: seq<int>, groups: map<Place, int>, tokens: set<int>, s: set<int>, info: Info,
                              score: Scores, adding: bool)
    requires tokens <= info.Keys && tokens <= score.Keys
  {
    && Represents(groups, tokens, info, score, adding)
    && Elements(r) <= Picks(groups) <= tokens && TriesFirst(r, Picks(groups), s, info, score, adding)
  }

  /** No single exchange changes the cost of s by less than d. */
  ghost predicate NoneBelow(d: int, removable: set<int>, available: set<int>, s: set<int>, info: Info) {
    forall t, u :: t in removable && u in available ==> Cost(Swapped(s, t, u), info) - Cost(s, info) >= d
  }

  predicate FewPlaces(removable: set<int>, available: set<int>, info: Info) {
    |Places(removable, info)| <= 16 && |Places(available, info)| <= 16
  }

  function Gain(b: Choice): int {
    if b.NoMove? then 0 else b.move.delta
  }

  /** The representatives of one side, shortlisted. */
  method Side(tokens: set<int>, loads: Loads, info: Info, score: Scores, adding: bool, ghost s: set<int>)
    returns (r: seq<int>)
    requires tokens <= info.Keys && tokens <= score.Keys && Tracks(loads, s, info)
    ensures Shortlisted(r, tokens, s, info, score, adding) && Elements(r) <= tokens
    ensures |Places(tokens, info)| <= 16 ==> forall p :: p in Places(tokens, info) ==> Stands(r, p, info)
  {
    hide Tracks, TriesFirst;
    var groups := Group(tokens, info, score, adding);
    GroupsArePlaces(groups, tokens, info, score, adding);
    hide Represents;
    r := Candidates(groups, loads, info, score, adding, s);
    assert ShortlistOf(r, groups, tokens, s, info, score, adding);
    if |Places(tokens, info)| <= 16 {
      forall p | p in Places(tokens, info)
        ensures Stands(r, p, info)
      {
        RepresentedIn(groups, tokens, info, score, adding, r, p);
      }
    }
  }

  /** Some listed row lies at the place. */
  ghost predicate Stands(r: seq<int>, p: Place, info: Info) {
    exists i :: 0 <= i < |r| && r[i] in info && info[r[i]] == p
  }

  /** The search's single step: group, shortlist, and take the best improving exchange. */
  method NextMove(removable: set<int>, available: set<int>, loads: Loads, info: Info, score: Scores,
                  ghost s: set<int>)
    returns (b: Choice)
    requires removable <= info.Keys && removable <= score.Keys && available <= info.Keys && available <= score.Keys
    requires Tracks(loads, s, info) && removable <= s && available !! s
    ensures b.Best? ==> b.move.drop in removable && b.move.add in available && b.move.delta < 0 &&
                        b.move == MoveOf(s, info, score, b.move.drop, b.move.add)
    ensures Greedy(b, removable, available, s, info, score)
    ensures FewPlaces(removable, available, info) ==> NoneBelow(Gain(b), removable, available, s, info)
  {
    hide Cost, Tracks, Shortlisted, Places, Stands, NotBetter, Swapped;
    var removals := Side(removable, loads, info, score, false, s);
    var additions := Side(available, loads, info, score, true, s);
    b := ChooseMove(loads, info, score, removals, additions, s);
    if b.Best? {
      BestIsListed(b, s, info, score, removals, additions);
    }
    if FewPlaces(removable, available, info) {
      ListedIsLeast(b, removable, available, loads, s, info, score, removals, additions);
    }
  }

  lemma BestIsListed(b: Choice, s: set<int>, info: Info, score: Scores, removals: seq<int>, additions: seq<int>)
    requires Known(removals, info, score) && Known(additions, info, score) && b.Best?
    requires BestOf(b, s, info, score, removals, additions, |removals|, 0)
    ensures b.move.drop in Elements(removals) && b.move.add in Elements(additions)
  {
  }

  /** Every exchange has the cost change of one between listed rows at the same two places. */
  lemma ListedIsLeast(b: Choice, removable: set<int>, available: set<int>, loads: Loads, s: set<int>, info: Info,
                      score: Scores, removals: seq<int>, additions: seq<int>)
    requires removable <= info.Keys && available <= info.Keys && removable <= s && available !! s
    requires Known(removals, info, score) && Known(additions, info, score) && Tracks(loads, s, info)
    requires Elements(removals) <= removable && Elements(additions) <= available
    requires forall p :: p in Places(removable, info) ==> Stands(removals, p, info)
    requires forall p :: p in Places(available, info) ==> Stands(additions, p, info)
    requires BestOf(b, s, info, score, removals, additions, |removals|, 0)
    ensures NoneBelow(Gain(b), removable, available, s, info)
  {
    hide Cost, Tracks, Swapped;
    forall t, u | t in removable && u in available
      ensures Cost(Swapped(s, t, u), info) - Cost(s, info) >= Gain(b)
    {
      assert info[t] in Places(removable, info) && info[u] in Places(available, info);
      var i :| 0 <= i < |removals| && removals[i] in info && info[removals[i]] == info[t];
      var j :| 0 <= j < |additions| && additions[j] in info && info[additions[j]] == info[u];
      assert NotBetter(MoveOf(s, info, score, removals[i], additions[j]), b);
      assert removals[i] in Elements(removals) && additions[j] in Elements(additions);
      DeltaIsTrue(loads, s, info, t, u);
      DeltaIsTrue(loads, s, info, removals[i], additions[j]);
    }
  }

  /** The distinct places of a set of rows. */
  function Places(tokens: set<int>, info: Info): set<Place> {
    set t | t in tokens && t in info :: info[t]
  }

  lemma GroupsArePlaces(groups: map<Place, int>, tokens: set<int>, info: Info, score: Scores, adding: bool)
    requires tokens <= info.Keys && tokens <= score.Keys && Represents(groups, tokens, info, score, adding)
    ensures groups.Keys == Places(tokens, info) && Picks(groups) <= tokens
  {
    forall p | p in groups
      ensures p in Places(tokens, info)
    {
      var t := groups[p];
      assert t in tokens && t in info && info[t] == p;
    }
  }

  /** A place has its representative on the list. */
  lemma RepresentedIn(groups: map<Place, int>, tokens: set<int>, info: Info, score: Scores, adding: bool, r: seq<int>,
                      p: Place)
    requires tokens <= info.Keys && tokens <= score.Keys && Represents(groups, tokens, info, score, adding)
    requires Elements(r) == Picks(groups) && p in Places(tokens, info)
    ensures Stands(r, p, info)
  {
    var t :| t in tokens && t in info && info[t] == p;
    assert groups[p] in Picks(groups);
    var i :| 0 <= i < |r| && r[i] == groups[p];
  }

  // ---------- the whole search ----------

  datatype Exchange = Exchange(drop: int, add: int)

  ghost function Drops(ex: seq<Exchange>): set<int> {
    set i | 0 <= i < |ex| :: ex[i].drop
  }

  ghost function Adds(ex: seq<Exchange>): set<int> {
    set i | 0 <= i < |ex| :: ex[i].add
  }

  /** No token is dropped twice or added twice. */
  ghost predicate OneToOne(ex: seq<Exchange>) {
    forall i, j :: 0 <= i < j < |ex| ==> ex[i].drop != ex[j].drop && ex[i].add != ex[j].add
  }

  /** The native selection with the exchanges carried out. */
  ghost function After(native: set<int>, ex: seq<Exchange>): set<int> {
    native - Drops(ex) + Adds(ex)
  }

  /** How far down the ranking (higher score first, then smaller token) a scored row stands. */
  ghost function Ahead(t: int, score: Scores): set<int>
    requires t in score
  {
    set u | u in score && (score[u] > score[t] || (score[u] == score[t] && u < t))
  }

  /** Native misses with a score outside the protected top of the ranking. */
  ghost function Removable(native: set<int>, resident: set<int>, score: Scores, protectTop: nat): set<int> {
    set t | t in native && t !in resident && t in score && |Ahead(t, score)| >= protectTop
  }

  ghost function Available(native: set<int>, resident: set<int>, score: Scores): set<int> {
    score.Keys - native - resident
  }

  lemma RankIsAhead(sorted: seq<int>, key: map<int, Rank>, score: Scores, i: nat)
    requires SortedBy(sorted, key) && Elements(sorted) == score.Keys && i < |sorted|
    requires key.Keys == score.Keys && forall t :: t in key ==> key[t] == Rank(0, -score[t], t)
    ensures sorted[i] in score && |Ahead(sorted[i], score)| == i
  {
    SortedDistinct(sorted, key);
    NoDuplicatesCard(sorted[..i]);
    assert sorted[i] in Elements(sorted);
    forall u | u in score
      ensures u in Elements(sorted[..i]) <==> u in Ahead(sorted[i], score)
    {
      assert u in Elements(sorted);
      var j :| 0 <= j < |sorted| && sorted[j] == u;
      if j < i {
        assert sorted[..i][j] == u && Less(key[u], key[sorted[i]]);
      } else {
        assert j == i || Less(key[sorted[i]], key[u]);
        assert forall m :: 0 <= m < i ==> sorted[..i][m] == sorted[m] && sorted[m] != u;
      }
    }
    assert Elements(sorted[..i]) <= Elements(sorted);
    assert Elements(sorted[..i]) == Ahead(sorted[i], score);
  }

  /**
    What one record fixes: the native selection, what is already resident, where rows lie, their scores, and how many
    are protected.
   */
  datatype Problem = Problem(native: set<int>, resident: set<int>, info: Info, score: Scores, protectTop: nat) {
    ghost predicate Ok() {
      native <= info.Keys && score.Keys <= info.Keys
    }
    ghost function Rem(ex: seq<Exchange>): (r: set<int>)
      requires Ok()
      ensures r <= info.Keys && r <= score.Keys
    {
      Removable(native, resident, score, protectTop) - Drops(ex)
    }
    ghost function Ava(ex: seq<Exchange>): (r: set<int>)
      requires Ok()
      ensures r <= info.Keys && r <= score.Keys
    {
      Available(native, resident, score) - Adds(ex)
    }
    ghost function Misses(ex: seq<Exchange>): set<int> {
      After(native, ex) - resident
    }
  }

  /** Exchanges so far only pair removable native misses with available extra misses, each used once. */
  ghost predicate Paired(p: Problem, ex: seq<Exchange>)
    requires p.Ok()
  {
    && OneToOne(ex)
    && Drops(ex) <= Removable(p.native, p.resident, p.score, p.protectTop)
    && Adds(ex) <= Available(p.native, p.resident, p.score)
  }

  lemma DropsSnoc(ex: seq<Exchange>, x: Exchange)
    ensures Drops(ex + [x]) == Drops(ex) + {x.drop} && Adds(ex + [x]) == Adds(ex) + {x.add}
  {
    var more := ex + [x];
    forall i | 0 <= i < |more|
      ensures more[i].drop in Drops(ex) + {x.drop} && more[i].add in Adds(ex) + {x.add}
    {
      assert more[i] == if i < |ex| then ex[i] else x;
    }
    forall i | 0 <= i < |ex|
      ensures ex[i].drop in Drops(more) && ex[i].add in Adds(more)
    {
      assert more[i] == ex[i];
    }
    assert more[|ex|] == x;
  }

  lemma PairedSnoc(p: Problem, ex: seq<Exchange>, x: Exchange)
    requires p.Ok() && Paired(p, ex) && x.drop in p.Rem(ex) && x.add in p.Ava(ex)
    ensures Paired(p, ex + [x])
    ensures After(p.native, ex + [x]) == Swapped(After(p.native, ex), x.drop, x.add)
    ensures p.Misses(ex + [x]) == Swapped(p.Misses(ex), x.drop, x.add)
    ensures p.Rem(ex + [x]) == p.Rem(ex) - {x.drop} && p.Ava(ex + [x]) == p.Ava(ex) - {x.add}
    ensures x.drop in p.Misses(ex) && x.add !in p.Misses(ex)
  {
    DropsSnoc(ex, x);
    hide Removable;
    forall i | 0 <= i < |ex|
      ensures ex[i].drop != x.drop && ex[i].add != x.add
    {
      assert ex[i].drop in Drops(ex) && ex[i].add in Adds(ex);
    }
    RemovableNative(p);
  }

  lemma RemovableNative(p: Problem)
    requires p.Ok()
    ensures Removable(p.native, p.resident, p.score, p.protectTop) <= p.native - p.resident
  {
  }

  /**
    Exchange i lowered the cost, was the move the preferences ask for, and with few places no other exchange would
    have done better.
   */
  ghost predicate Step(p: Problem, ex: seq<Exchange>, i: nat)
    requires p.Ok() && i < |ex|
  {
    && Cost(p.Misses(ex[..i + 1]), p.info) < Cost(p.Misses(ex[..i]), p.info)
    && Asked(p, ex[..i], ex[i])
    && (FewPlaces(p.Rem(ex[..i]), p.Ava(ex[..i]), p.info) ==> Steepest(p, ex[..i], Cost(p.Misses(ex[..i + 1]), p.info)))
  }

  /** The next exchange after ex is the one the preferences ask for. */
  ghost predicate Asked(p: Problem, ex: seq<Exchange>, x: Exchange)
    requires p.Ok()
  {
    exists b :: Greedy(b, p.Rem(ex), p.Ava(ex), p.Misses(ex), p.info, p.score) &&
      b.Best? && b.move.drop == x.drop && b.move.add == x.add
  }

  /** After ex the preferences find no exchange that lowers the cost. */
  ghost predicate Stopped(p: Problem, ex: seq<Exchange>)
    requires p.Ok()
  {
    Greedy(NoMove, p.Rem(ex), p.Ava(ex), p.Misses(ex), p.info, p.score)
  }

  /** What the search within a budget returns: it makes the exchanges asked for, and ends early only when it must. */
  ghost predicate SearchResult(p: Problem, budget: nat, ex: seq<Exchange>)
    requires p.Ok()
  {
    && Paired(p, ex) && |ex| <= budget
    && (forall i :: 0 <= i < |ex| ==> Step(p, ex, i))
    && (|ex| < budget ==> Stopped(p, ex))
    && (|ex| < budget && FewPlaces(p.Rem(ex), p.Ava(ex), p.info) ==> Steepest(p, ex, Cost(p.Misses(ex), p.info)))
  }

  /** No exchange possible after ex brings the cost below v. */
  ghost predicate Steepest(p: Problem, ex: seq<Exchange>, v: int)
    requires p.Ok()
  {
    forall t, u :: t in p.Rem(ex) && u in p.Ava(ex) ==> Cost(Swapped(p.Misses(ex), t, u), p.info) >= v
  }

  lemma SteepestFrom(p: Problem, ex: seq<Exchange>, d: int)
    requires p.Ok() && NoneBelow(d, p.Rem(ex), p.Ava(ex), p.Misses(ex), p.info)
    ensures Steepest(p, ex, Cost(p.Misses(ex), p.info) + d)
  {
    hide Cost, Swapped, Problem.Rem, Problem.Ava, Problem.Misses;
  }

  lemma TracksSwap(loads: Loads, s: set<int>, info: Info, drop: int, add: int)
    requires Tracks(loads, s, info) && drop in s && add !in s && drop in info && add in info
    ensures Tracks(Bump(Bump(loads, info[add], 1), info[drop], -1), Swapped(s, drop, add), info)
  {
    hide Resources, Load, Swapped;
    forall r
      ensures Load(Swapped(s, drop, add), info, r) == Load(s, info, r) + Change(info[drop], info[add], r)
    {
      LoadAfterSwap(s, info, drop, add, r);
    }
  }

  lemma StepSnoc(p: Problem, ex: seq<Exchange>, x: Exchange, i: nat)
    requires p.Ok() && i < |ex| && Step(p, ex, i)
    ensures Step(p, ex + [x], i)
  {
    hide Cost, Asked, Steepest, FewPlaces, Problem.Rem, Problem.Ava, Problem.Misses;
    assert (ex + [x])[..i] == ex[..i] && (ex + [x])[..i + 1] == ex[..i + 1];
  }

  lemma StepLast(p: Problem, ex: seq<Exchange>, b: Choice)
    requires p.Ok() && Paired(p, ex)
    requires b.Best? && b.move.drop in p.Rem(ex) && b.move.add in p.Ava(ex) && b.move.delta < 0
    requires b.move == MoveOf(p.Misses(ex), p.info, p.score, b.move.drop, b.move.add)
    requires Greedy(b, p.Rem(ex), p.Ava(ex), p.Misses(ex), p.info, p.score)
    requires FewPlaces(p.Rem(ex), p.Ava(ex), p.info) ==>
      NoneBelow(Gain(b), p.Rem(ex), p.Ava(ex), p.Misses(ex), p.info)
    ensures Step(p, ex + [Exchange(b.move.drop, b.move.add)], |ex|)
  {
    hide Cost, Greedy, Steepest, FewPlaces, NoneBelow, Removable, Swapped;
    var x := Exchange(b.move.drop, b.move.add);
    assert (ex + [x])[..|ex|] == ex && (ex + [x])[..|ex| + 1] == ex + [x];
    PairedSnoc(p, ex, x);
    if FewPlaces(p.Rem(ex), p.Ava(ex), p.info) {
      SteepestFrom(p, ex, Gain(b));
    }
    assert Asked(p, ex, x);
  }

  /** The row at rank j is a native miss below the protected ones. */
  predicate Unprotected(p: Problem, ranked: seq<int>, j: nat)
    requires j < |ranked|
  {
    j >= p.protectTop && ranked[j] in p.native && ranked[j] !in p.resident
  }

  /** The ranked rows after the protected ones, restricted to native misses. */
  method FindRemovable(p: Problem) returns (r: set<int>)
    requires p.Ok()
    ensures r == Removable(p.native, p.resident, p.score, p.protectTop)
  {
    var key := map t | t in p.score :: Rank(0, -p.score[t], t);
    var ranked := SortBy(p.score.Keys, key);
    r := {};
    for i := 0 to |ranked|
      invariant r == set j | 0 <= j < i && Unprotected(p, ranked, j) :: ranked[j]
    {
      if i >= p.protectTop && ranked[i] in p.native && ranked[i] !in p.resident {
        r := r + {ranked[i]};
      }
    }
    RankedRemovable(p, ranked, key, r);
  }

  lemma RankedRemovable(p: Problem, ranked: seq<int>, key: map<int, Rank>, r: set<int>)
    requires SortedBy(ranked, key) && Elements(ranked) == p.score.Keys
    requires key.Keys == p.score.Keys && forall t :: t in key ==> key[t] == Rank(0, -p.score[t], t)
    requires r == set j | 0 <= j < |ranked| && Unprotected(p, ranked, j) :: ranked[j]
    ensures r == Removable(p.native, p.resident, p.score, p.protectTop)
  {
    hide Ahead, SortedBy;
    forall i | 0 <= i < |ranked|
      ensures ranked[i] in p.score && |Ahead(ranked[i], p.score)| == i
    {
      RankIsAhead(ranked, key, p.score, i);
    }
    forall t | t in Removable(p.native, p.resident, p.score, p.protectTop)
      ensures t in r
    {
      assert t in Elements(ranked);
      var i :| 0 <= i < |ranked| && ranked[i] == t;
    }
  }

  /** select: at most budget exchanges, each lowering the cost of the misses. */
  method Select(p: Problem, budget: nat) returns (selected: set<int>, ex: seq<Exchange>, initial: int, final: int)
    requires p.Ok()
    ensures selected == After(p.native, ex) && SearchResult(p, budget, ex)
    ensures initial == Cost(p.native - p.resident, p.info) && final == Cost(selected - p.resident, p.info)
  {
    hide Cost, Tracks, Greedy, Steepest, FewPlaces, NoneBelow, Removable, Step, Bump, MoveOf, Asked;
    var removable := FindRemovable(p);
    var available := p.score.Keys - p.native - p.resident;
    var loads := Pressure(p.native - p.resident, p.info);
    ObjectiveIsCost(loads, p.native - p.resident, p.info);
    initial := Objective(loads);
    selected, ex := p.native, [];
    assert After(p.native, []) == p.native;
    var going := true;
    while going && |ex| < budget
      invariant |ex| <= budget && Paired(p, ex) && selected == After(p.native, ex)
      invariant removable == p.Rem(ex) && available == p.Ava(ex)
      invariant Tracks(loads, p.Misses(ex), p.info)
      invariant forall i :: 0 <= i < |ex| ==> Step(p, ex, i)
      invariant !going ==> Stopped(p, ex)
      invariant !going && FewPlaces(p.Rem(ex), p.Ava(ex), p.info) ==> Steepest(p, ex, Cost(p.Misses(ex), p.info))
      decreases going, budget - |ex|
    {
      PoolsAndMisses(p, ex);
      var b := NextMove(removable, available, loads, p.info, p.score, p.Misses(ex));
      if b.NoMove? {
        going := false;
        if FewPlaces(p.Rem(ex), p.Ava(ex), p.info) {
          SteepestFrom(p, ex, 0);
        }
      } else {
        var x := Exchange(b.move.drop, b.move.add);
        PairedSnoc(p, ex, x);
        StepLast(p, ex, b);
        StepsSnoc(p, ex, x);
        TracksSwap(loads, p.Misses(ex), p.info, x.drop, x.add);
        selected := selected - {x.drop} + {x.add};
        removable, available := removable - {x.drop}, available - {x.add};
        loads := Bump(Bump(loads, p.info[x.add], 1), p.info[x.drop], -1);
        ex := ex + [x];
      }
    }
    ObjectiveIsCost(loads, p.Misses(ex), p.info);
    final := Objective(loads);
  }

  /** Rows still removable are misses, rows still available are not. */
  lemma PoolsAndMisses(p: Problem, ex: seq<Exchange>)
    requires p.Ok() && Paired(p, ex)
    ensures p.Rem(ex) <= p.Misses(ex) && p.Ava(ex) !! p.Misses(ex)
  {
    RemovableNative(p);
    hide Removable;
  }

  lemma StepsSnoc(p: Problem, ex: seq<Exchange>, x: Exchange)
    requires p.Ok() && forall i :: 0 <= i < |ex| ==> Step(p, ex, i)
    requires Step(p, ex + [x], |ex|)
    ensures forall i :: 0 <= i < |ex + [x]| ==> Step(p, ex + [x], i)
  {
    hide Step;
    forall i | 0 <= i < |ex|
      ensures Step(p, ex + [x], i)
    {
      StepSnoc(p, ex, x, i);
    }
  }
}
