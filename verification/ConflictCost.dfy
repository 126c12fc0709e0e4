/** The conflict cost spelled out over rows: how many of them share a channel, a chip, a die and a plane. */
module ConflictCost {
  import opened Finite
  import opened Sums
  import opened Selection

  /** Counters that track s hold, for every resource, the number of rows of s that lie on it. */
  lemma TrackedLoads(loads: Loads, s: set<int>, info: Info)
    requires Tracks(loads, s, info) && s <= info.Keys
    ensures forall c :: Get(loads, Channel(c)) == |set t | t in s && info[t].channel == c|
    ensures forall c, p :: Get(loads, Chip(c, p)) == |set t | t in s && info[t].channel == c && info[t].chip == p|
    ensures forall c, p, d ::
      Get(loads, Die(c, p, d)) == |set t | t in s && info[t].channel == c && info[t].chip == p && info[t].die == d|
    ensures forall c, p, d, l ::
      Get(loads, Plane(c, p, d, l)) ==
      |set t | t in s && info[t].channel == c && info[t].chip == p && info[t].die == d && info[t].plane == l|
  {
    LoadsAre(s, info);
  }

  lemma LoadsAre(s: set<int>, info: Info)
    requires s <= info.Keys
    ensures forall c :: Load(s, info, Channel(c)) == |set t | t in s && info[t].channel == c|
    ensures forall c, p :: Load(s, info, Chip(c, p)) == |set t | t in s && info[t].channel == c && info[t].chip == p|
    ensures forall c, p, d ::
      Load(s, info, Die(c, p, d)) == |set t | t in s && info[t].channel == c && info[t].chip == p && info[t].die == d|
    ensures forall c, p, d, l ::
      Load(s, info, Plane(c, p, d, l)) ==
      |set t | t in s && info[t].channel == c && info[t].chip == p && info[t].die == d && info[t].plane == l|
  {
    forall c
      ensures Load(s, info, Channel(c)) == |set t | t in s && info[t].channel == c|
    {
      assert Users(s, info, Channel(c)) == set t | t in s && info[t].channel == c;
    }
    forall c, p
      ensures Load(s, info, Chip(c, p)) == |set t | t in s && info[t].channel == c && info[t].chip == p|
    {
      assert Users(s, info, Chip(c, p)) == set t | t in s && info[t].channel == c && info[t].chip == p;
    }
    forall c, p, d
      ensures Load(s, info, Die(c, p, d)) ==
        |set t | t in s && info[t].channel == c && info[t].chip == p && info[t].die == d|
    {
      assert Users(s, info, Die(c, p, d)) ==
        set t | t in s && info[t].channel == c && info[t].chip == p && info[t].die == d;
    }
    forall c, p, d, l
      ensures Load(s, info, Plane(c, p, d, l)) ==
        |set t | t in s && info[t].channel == c && info[t].chip == p && info[t].die == d && info[t].plane == l|
    {
      assert Users(s, info, Plane(c, p, d, l)) ==
        set t | t in s && info[t].channel == c && info[t].chip == p && info[t].die == d && info[t].plane == l;
    }
  }

  // ---------- sums over the four families ----------

  lemma {:induction false} SumUnion<T>(a: set<T>, b: set<T>, f: T -> int)
    requires a !! b
    ensures Sum(a + b, f) == Sum(a, f) + Sum(b, f)
    decreases |a|
  {
    if a == {} {
      assert a + b == b;
    } else {
      var x := Pick(a);
      SumUnion(a - {x}, b, f);
      SumRemove(a, f, x);
      SumRemove(a + b, f, x);
      assert a + b - {x} == a - {x} + b;
    }
  }

  /** A sum over the images of an injection is a sum over its arguments. */
  lemma {:induction false} SumImage<A, B>(a: set<A>, b: set<B>, g: A -> B, f: B -> int, h: A -> int)
    requires forall x :: x in a ==> g(x) in b && h(x) == f(g(x))
    requires forall x, y :: x in a && y in a && g(x) == g(y) ==> x == y
    requires forall z :: z in b ==> exists x :: x in a && g(x) == z
    ensures Sum(b, f) == Sum(a, h)
    decreases |a|
  {
    if a == {} {
      assert b == {};
    } else {
      var x := Pick(a);
      forall z | z in b - {g(x)}
        ensures exists y :: y in a - {x} && g(y) == z
      {
        var y :| y in a && g(y) == z;
        assert y in a - {x};
      }
      SumImage(a - {x}, b - {g(x)}, g, f, h);
      SumRemove(a, h, x);
      SumRemove(b, f, g(x));
    }
  }

  ghost function ChannelSquare(s: set<int>, info: Info): nat -> int
    requires s <= info.Keys
  {
    c => var n := |set t | t in s && info[t].channel == c|; n * n
  }

  ghost function ChipSquare(s: set<int>, info: Info): ((nat, nat)) -> int
    requires s <= info.Keys
  {
    (x: (nat, nat)) => var n := |set t | t in s && (info[t].channel, info[t].chip) == x|; n * n
  }

  ghost function DieSquare(s: set<int>, info: Info): ((nat, nat, nat)) -> int
    requires s <= info.Keys
  {
    (x: (nat, nat, nat)) => var n := |set t | t in s && (info[t].channel, info[t].chip, info[t].die) == x|; n * n
  }

  ghost function PlaneSquare(s: set<int>, info: Info): Place -> int
    requires s <= info.Keys
  {
    x => var n := |set t | t in s && info[t] == x|; n * n
  }

  /**
    The cost is the sum of four sums of squares: over the channels in use, the chips, the dies and the planes, each of
    the number of rows that lie there.
   */
  lemma CostIs(s: set<int>, info: Info)
    requires s <= info.Keys
    ensures Cost(s, info) ==
            Sum(set t | t in s :: info[t].channel, ChannelSquare(s, info)) +
            Sum(set t | t in s :: (info[t].channel, info[t].chip), ChipSquare(s, info)) +
            Sum(set t | t in s :: (info[t].channel, info[t].chip, info[t].die), DieSquare(s, info)) +
            Sum(set t | t in s :: info[t], PlaneSquare(s, info))
  {
    var channels := set t | t in s && t in info :: Channel(info[t].channel);
    var chips := set t | t in s && t in info :: Chip(info[t].channel, info[t].chip);
    var dies := set t | t in s && t in info :: Die(info[t].channel, info[t].chip, info[t].die);
    var planes := set t | t in s && t in info :: Plane(info[t].channel, info[t].chip, info[t].die, info[t].plane);
    var f := Square(s, info);
    hide Square, ChannelSquare, ChipSquare, DieSquare, PlaneSquare;
    assert Busy(s, info) == channels + chips + dies + planes;
    SumUnion(channels + chips + dies, planes, f);
    SumUnion(channels + chips, dies, f);
    SumUnion(channels, chips, f);
    ChannelSum(s, info, set t | t in s :: info[t].channel, channels);
    ChipSum(s, info, set t | t in s :: (info[t].channel, info[t].chip), chips);
    DieSum(s, info, set t | t in s :: (info[t].channel, info[t].chip, info[t].die), dies);
    PlaneSum(s, info, set t | t in s :: info[t], planes);
  }

  lemma ChannelSum(s: set<int>, info: Info, a: set<nat>, b: set<Resource>)
    requires s <= info.Keys && a == (set t | t in s :: info[t].channel)
    requires b == set t | t in s && t in info :: Channel(info[t].channel)
    ensures Sum(b, Square(s, info)) == Sum(a, ChannelSquare(s, info))
  {
    var g := (x: nat) => Channel(x);
    forall x | x in a
      ensures g(x) in b && ChannelSquare(s, info)(x) == Square(s, info)(g(x))
    {
      var t :| t in s && info[t].channel == x;
      assert Users(s, info, g(x)) == set t | t in s && info[t].channel == x;
    }
    forall z | z in b
      ensures exists x :: x in a && g(x) == z
    {
      var t :| t in s && t in info && z == Channel(info[t].channel);
      assert g(info[t].channel) == z;
    }
    SumImage(a, b, g, Square(s, info), ChannelSquare(s, info));
  }

  lemma ChipSum(s: set<int>, info: Info, a: set<(nat, nat)>, b: set<Resource>)
    requires s <= info.Keys && a == (set t | t in s :: (info[t].channel, info[t].chip))
    requires b == set t | t in s && t in info :: Chip(info[t].channel, info[t].chip)
    ensures Sum(b, Square(s, info)) == Sum(a, ChipSquare(s, info))
  {
    var g := (x: (nat, nat)) => Chip(x.0, x.1);
    forall x | x in a
      ensures g(x) in b && ChipSquare(s, info)(x) == Square(s, info)(g(x))
    {
      var t :| t in s && (info[t].channel, info[t].chip) == x;
      assert Users(s, info, g(x)) == set t | t in s && (info[t].channel, info[t].chip) == x;
    }
    forall z | z in b
      ensures exists x :: x in a && g(x) == z
    {
      var t :| t in s && t in info && z == Chip(info[t].channel, info[t].chip);
      assert g((info[t].channel, info[t].chip)) == z;
    }
    SumImage(a, b, g, Square(s, info), ChipSquare(s, info));
  }

  lemma DieSum(s: set<int>, info: Info, a: set<(nat, nat, nat)>, b: set<Resource>)
    requires s <= info.Keys && a == (set t | t in s :: (info[t].channel, info[t].chip, info[t].die))
    requires b == set t | t in s && t in info :: Die(info[t].channel, info[t].chip, info[t].die)
    ensures Sum(b, Square(s, info)) == Sum(a, DieSquare(s, info))
  {
    var g := (x: (nat, nat, nat)) => Die(x.0, x.1, x.2);
    forall x | x in a
      ensures g(x) in b && DieSquare(s, info)(x) == Square(s, info)(g(x))
    {
      var t :| t in s && (info[t].channel, info[t].chip, info[t].die) == x;
      assert Users(s, info, g(x)) == set t | t in s && (info[t].channel, info[t].chip, info[t].die) == x;
    }
    forall z | z in b
      ensures exists x :: x in a && g(x) == z
    {
      var t :| t in s && t in info && z == Die(info[t].channel, info[t].chip, info[t].die);
      assert g((info[t].channel, info[t].chip, info[t].die)) == z;
    }
    SumImage(a, b, g, Square(s, info), DieSquare(s, info));
  }

  lemma PlaneSum(s: set<int>, info: Info, a: set<Place>, b: set<Resource>)
    requires s <= info.Keys && a == (set t | t in s :: info[t])
    requires b == set t | t in s && t in info :: Plane(info[t].channel, info[t].chip, info[t].die, info[t].plane)
    ensures Sum(b, Square(s, info)) == Sum(a, PlaneSquare(s, info))
  {
    var g := (x: Place) => Plane(x.channel, x.chip, x.die, x.plane);
    forall x | x in a
      ensures g(x) in b && PlaneSquare(s, info)(x) == Square(s, info)(g(x))
    {
      var t :| t in s && info[t] == x;
      assert Users(s, info, g(x)) == set t | t in s && info[t] == x;
    }
    forall z | z in b
      ensures exists x :: x in a && g(x) == z
    {
      var t :| t in s && t in info && z == Plane(info[t].channel, info[t].chip, info[t].die, info[t].plane);
      assert g(info[t]) == z;
    }
    SumImage(a, b, g, Square(s, info), PlaneSquare(s, info));
  }
}
