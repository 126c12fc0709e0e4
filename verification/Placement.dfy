/** The position hash that assigns a key (layer, token) to a device (bmpclient/virtual_media_strategy.py). */
module Placement {
  import opened Arith
  import opened Finite

  ghost predicate Divides(d: nat, n: int)
    requires 0 < d
  {
    n % d == 0
  }

  ghost predicate Prime(n: int) {
    2 <= n && forall d: nat :: 2 <= d < n ==> !Divides(d, n)
  }

  /** A divisor's cofactor divides too. */
  lemma Cofactor(d: nat, n: nat)
    requires 0 < d && 0 < n && Divides(d, n)
    ensures n == (n / d) * d && 0 < n / d && Divides(n / d, n)
    ensures d > 1 ==> n / d < n
  {
    var q := n / d;
    assert n == q * d;
    if q <= 0 {
      MulMono(q, 0, d);
      assert false;
    }
    DivUnique(d, 0, q);
    assert n == d * q;
    if d > 1 {
      assert q * d >= q * 2 by { MulMono(2, d, q); }
    }
  }

  /** No divisor up to the square root means no divisor at all. */
  lemma NoSmallDivisor(n: nat, i: nat)
    requires 2 <= n && 2 <= i && n < i * i
    requires forall d: nat :: 2 <= d < i && d < n ==> !Divides(d, n)
    ensures Prime(n)
  {
    forall d: nat | 2 <= d < n
      ensures !Divides(d, n)
    {
      if Divides(d, n) {
        Cofactor(d, n);
        var q := n / d;
        assert q != 1;
        assert i <= d && i <= q;
        MulMono(i, q, d);
        MulMono(i, d, i);
        assert false;
      }
    }
  }

  lemma EvenDivisor(e: nat, n: nat)
    requires 0 < e && e % 2 == 0 && Divides(e, n)
    ensures n % 2 == 0
  {
    var q, h := n / e, e / 2;
    assert n == q * (2 * h);
    DivUnique(q * h, 0, 2);
  }

  lemma SquareGrows(i: nat)
    requires 3 <= i
    ensures i < i * i < (i + 2) * (i + 2)
  {
  }

  /** Trial division by 2 and the odd numbers up to the square root is exact. */
  method IsPrime(n: int) returns (r: bool)
    ensures r <==> Prime(n)
  {
    if n < 2 {
      return false;
    }
    if n % 2 == 0 {
      assert Divides(2, n);
      return n == 2;
    }
    var i := 3;
    while i * i <= n
      invariant 3 <= i && i % 2 == 1
      invariant forall d: nat :: 2 <= d < i && d < n ==> !Divides(d, n)
      decreases n - i * i
    {
      SquareGrows(i);
      if n % i == 0 {
        assert Divides(i, n);
        return false;
      }
      if Divides(i + 1, n) {
        EvenDivisor(i + 1, n);
      }
      i := i + 2;
    }
    NoSmallDivisor(n, i);
    return true;
  }

  // ---------- configuration and lookup ----------

  datatype Config = Config(devices: nat, stepIdx: nat, stepLayer: nat, prime: nat) {
    /** What the constructor accepts. */
    ghost predicate Ok() {
      && 0 < devices
      && Prime(stepIdx) && Prime(stepLayer) && Prime(prime)
      && devices < stepIdx && devices < stepLayer && stepIdx != stepLayer
      && stepIdx < prime && stepLayer < prime
    }

    /** The position a key is hashed from, before any reduction. */
    function Position(layer: nat, token: nat): nat {
      token * stepIdx + layer * stepLayer
    }

    function Locate(layer: nat, token: nat): (d: nat)
      requires 0 < devices && 0 < prime
      ensures d < devices
    {
      (Position(layer, token) % prime) % devices
    }
  }

  /** The semantic key every placement strategy is asked about. */
  datatype Key = Key(layer: nat, token: nat)

  /** The position hash as a placement strategy: a total map from keys to devices. */
  function PositionHash(cfg: Config): (home: Key -> nat)
    requires 0 < cfg.devices && 0 < cfg.prime
    ensures forall k :: home(k) == cfg.Locate(k.layer, k.token)
    ensures forall k :: home(k) < cfg.devices
  {
    (k: Key) => cfg.Locate(k.layer, k.token)
  }

  datatype Validation = Accepted(cfg: Config) | Rejected

  /** Construction: parameters are checked in order, and the domain bound only when both maxima are given. */
  method Validate(devices: int, stepIdx: int, stepLayer: int, prime: int, hasDomain: bool, maxToken: nat, maxLayer: nat)
    returns (r: Validation)
    ensures r.Accepted? <==>
      0 <= devices && 0 <= stepIdx && 0 <= stepLayer && 0 <= prime &&
      Config(devices, stepIdx, stepLayer, prime).Ok() &&
      (hasDomain ==> maxToken * stepIdx + maxLayer * stepLayer < prime)
    ensures r.Accepted? ==> r.cfg == Config(devices, stepIdx, stepLayer, prime)
  {
    if devices <= 0 {
      return Rejected;
    }
    var p1 := IsPrime(stepIdx);
    if !p1 || stepIdx <= devices {
      return Rejected;
    }
    var p2 := IsPrime(stepLayer);
    if !p2 || stepLayer <= devices || stepIdx == stepLayer {
      return Rejected;
    }
    var p3 := IsPrime(prime);
    if !p3 || prime <= stepIdx || prime <= stepLayer {
      return Rejected;
    }
    if hasDomain && prime <= maxToken * stepIdx + maxLayer * stepLayer {
      return Rejected;
    }
    return Accepted(Config(devices, stepIdx, stepLayer, prime));
  }

  /** The loop form used when a batch is planned. */
  method LocateBatch(cfg: Config, keys: seq<Key>) returns (out: seq<nat>)
    requires cfg.Ok()
    ensures |out| == |keys|
    ensures forall i :: 0 <= i < |keys| ==> out[i] == cfg.Locate(keys[i].layer, keys[i].token)
  {
    out := [];
    for i := 0 to |keys|
      invariant |out| == i
      invariant forall j :: 0 <= j < i ==> out[j] == cfg.Locate(keys[j].layer, keys[j].token)
    {
      var k := keys[i];
      out := out + [((k.token * cfg.stepIdx + k.layer * cfg.stepLayer) % cfg.prime) % cfg.devices];
    }
  }

  // ---------- divisibility by a prime ----------

  lemma DividesDifference(d: nat, a: int, b: int)
    requires 0 < d && Divides(d, a) && Divides(d, b)
    ensures Divides(d, a - b)
  {
    var x, y := a / d, b / d;
    assert a == x * d && b == y * d;
    assert a - b == (x - y) * d;
    DivUnique(x - y, 0, d);
  }

  lemma DividesMultiple(d: nat, a: int, k: int)
    requires 0 < d && Divides(d, a)
    ensures Divides(d, k * a)
  {
    var x := a / d;
    assert a == x * d;
    assert k * a == (k * x) * d;
    DivUnique(k * x, 0, d);
  }

  /** Euclid: a prime that divides r * b, with 0 < r < p, divides b. Descends through the remainders of p. */
  lemma {:induction false} PrimeDividesProduct(p: nat, r: nat, b: int)
    requires Prime(p) && 0 < r < p && Divides(p, r * b)
    ensures Divides(p, b)
    decreases r
  {
    if r > 1 {
      var q, s := p / r, p % r;
      assert !Divides(r, p);
      DividesMultiple(p, r * b, q);
      DivUnique(b, 0, p);
      assert Divides(p, b * p);
      DividesDifference(p, b * p, q * (r * b));
      assert b * p - q * (r * b) == s * b by {
        assert p == q * r + s;
        assert b * p == b * (q * r) + b * s;
        assert b * (q * r) == q * (r * b);
      }
      PrimeDividesProduct(p, s, b);
    }
  }

  /** Steps of a prime larger than n visit different residues modulo n until n steps have been made. */
  lemma StepsDiffer(step: nat, n: nat, k: int)
    requires Prime(step) && 0 < n < step && 0 < k < n
    ensures !Divides(n, k * step)
  {
    if Divides(n, k * step) {
      var m := (k * step) / n;
      assert k * step == m * n;
      DivUnique(k, 0, step);
      assert Divides(step, n * m);
      PrimeDividesProduct(step, n, m);
      var j := m / step;
      assert m == j * step;
      assert k * step == (j * n) * step by { assert m * n == (j * step) * n; }
      MulCancel(k, j * n, step);
      if j >= 1 { MulMono(1, j, n); } else { MulMono(j, 0, n); }
      assert false;
    }
  }

  /** Two points congruent modulo n differ by a multiple of n. */
  lemma CongruentDifference(a: int, b: int, n: nat)
    requires 0 < n
    ensures a % n == b % n <==> Divides(n, a - b)
  {
    var x, y := a / n, b / n;
    assert a == x * n + a % n && b == y * n + b % n;
    if a % n == b % n {
      assert a - b == (x - y) * n;
      DivUnique(x - y, 0, n);
    }
    if Divides(n, a - b) {
      var z := (a - b) / n;
      assert a - b == z * n;
      assert a == (y + z) * n + b % n;
      DivUnique(y + z, b % n, n);
    }
  }

  /** s lists every one of n devices exactly once. */
  ghost predicate ExactlyOnce(s: seq<nat>, n: nat) {
    NoDuplicates(s) && Elements(s) == Below(n)
  }

  lemma ExactlyOnceIff(s: seq<nat>, n: nat)
    requires |s| == n && forall i :: 0 <= i < n ==> s[i] < n
    ensures ExactlyOnce(s, n) <==> NoDuplicates(s)
  {
    if NoDuplicates(s) {
      NoDuplicatesCard(s);
      SubsetCard(Elements(s), Below(n));
    }
  }

  // ---------- arithmetic progressions modulo n ----------

  lemma ProgressionInjective(a: int, step: nat, n: nat, i: nat, j: nat)
    requires Prime(step) && 0 < n < step && i < j < n
    ensures (a + i * step) % n != (a + j * step) % n
  {
    StepsDiffer(step, n, j - i);
    assert (a + j * step) - (a + i * step) == (j - i) * step;
    CongruentDifference(a + j * step, a + i * step, n);
  }

  /** n steps of a prime larger than n visit every residue. */
  lemma ProgressionHits(a: int, step: nat, n: nat, d: nat) returns (i: nat)
    requires Prime(step) && 0 < n < step && d < n
    ensures i < n && (a + i * step) % n == d
  {
    var visited := Residues(a, step, n);
    forall i, j | 0 <= i < j < n
      ensures visited[i] != visited[j]
    {
      ProgressionInjective(a, step, n, i, j);
    }
    ExactlyOnceIff(visited, n);
    assert d in Elements(visited);
    i :| 0 <= i < n && visited[i] == d;
  }

  ghost function Residues(a: int, step: nat, n: nat): (w: seq<nat>)
    requires 0 < n
    ensures |w| == n && forall i :: 0 <= i < n ==> w[i] == (a + i * step) % n
  {
    seq(n, i => (a + i * step) % n)
  }

  // ---------- coverage ----------

  function Hash(p: nat, n: nat, x: int): (d: nat)
    requires 0 < p && 0 < n
    ensures d < n
  {
    (x % p) % n
  }

  /** The devices of the n points a, a + s, a + 2s, ... */
  ghost function Window(p: nat, n: nat, a: nat, s: nat): (w: seq<nat>)
    requires 0 < p && 0 < n
    ensures |w| == n && forall i :: 0 <= i < n ==> w[i] == Hash(p, n, a + i * s)
  {
    seq(n, i => Hash(p, n, a + i * s))
  }

  /** Reduction by p inside the lap that starts at lo. */
  lemma Reduce(p: nat, lo: nat, x: int)
    requires 0 < p && Divides(p, lo) && lo <= x < lo + p
    ensures x % p == x - lo && x / p == lo / p
  {
    assert lo == (lo / p) * p;
    DivUnique(lo / p, x - lo, p);
  }

  lemma WindowInLap(p: nat, n: nat, a: nat, s: nat, lo: nat)
    requires 0 < p && Prime(s) && 0 < n < s && Divides(p, lo) && lo <= a && a + (n - 1) * s < lo + p
    ensures NoDuplicates(Window(p, n, a, s))
  {
    var w := Window(p, n, a, s);
    forall i, j | 0 <= i < j < n
      ensures w[i] != w[j]
    {
      HashBefore(p, n, a, s, lo, n, i);
      HashBefore(p, n, a, s, lo, n, j);
      ProgressionInjective(a - lo, s, n, i, j);
    }
  }

  /** The first of the points a + i * s that reaches hi. */
  lemma {:induction false} Crossing(hi: nat, a: nat, s: nat, m: nat) returns (k: nat)
    requires a < hi <= a + m * s
    ensures 0 < k <= m && a + (k - 1) * s < hi <= a + k * s
    decreases m
  {
    k := m;
    if m > 0 && hi <= a + (m - 1) * s {
      k := Crossing(hi, a, s, m - 1);
    }
  }

  /** A window that crosses a multiple of the prime sends two of its points to one device. */
  lemma WindowAcrossLaps(p: nat, n: nat, a: nat, s: nat, lo: nat)
    requires Prime(p) && Prime(s) && 1 < n < s && n < p && (n - 1) * s < p
    requires Divides(p, lo) && lo <= a < lo + p <= a + (n - 1) * s
    ensures !NoDuplicates(Window(p, n, a, s))
  {
    var k := Crossing(lo + p, a, s, n - 1);
    var c := ShiftOf(p, n, s);
    CrossingCollides(p, n, a, s, lo, k, c);
  }

  /** How many steps of s make up p modulo n: never none, since n does not divide the prime p. */
  lemma ShiftOf(p: nat, n: nat, s: nat) returns (c: nat)
    requires Prime(p) && Prime(s) && 1 < n < s && n < p
    ensures 0 < c < n && (c * s) % n == p % n
  {
    c := ProgressionHits(0, s, n, p % n);
    assert !Divides(n, p);
  }

  lemma CrossingCollides(p: nat, n: nat, a: nat, s: nat, lo: nat, k: nat, c: nat)
    requires 0 < p && 0 < n && (n - 1) * s < p && Divides(p, lo) && lo <= a
    requires 0 < k < n && a + (k - 1) * s < lo + p <= a + k * s && a < lo + p
    requires 0 < c < n && (c * s) % n == p % n
    ensures !NoDuplicates(Window(p, n, a, s))
  {
    var i := if k < c then 0 else k - c;
    HashBefore(p, n, a, s, lo, k, i);
    HashAfter(p, n, a, s, lo, k, i + c);
    Collide(p, n, s, a - lo, i, i + c, c);
    assert Window(p, n, a, s)[i] == Window(p, n, a, s)[i + c];
  }

  lemma HashBefore(p: nat, n: nat, a: nat, s: nat, lo: nat, k: nat, i: nat)
    requires 0 < p && 0 < n && Divides(p, lo) && lo <= a && i < k && a + (k - 1) * s < lo + p
    ensures Hash(p, n, a + i * s) == (a - lo + i * s) % n
  {
    MulMono(i, k - 1, s);
    Reduce(p, lo, a + i * s);
  }

  lemma HashAfter(p: nat, n: nat, a: nat, s: nat, lo: nat, k: nat, j: nat)
    requires 0 < p && 0 < n && Divides(p, lo) && a < lo + p <= a + k * s && k <= j < n && (n - 1) * s < p
    ensures Hash(p, n, a + j * s) == (a - lo + j * s - p) % n
  {
    MulMono(k, j, s);
    MulMono(j, n - 1, s);
    assert lo + p == (lo / p + 1) * p;
    DivUnique(lo / p + 1, 0, p);
    Reduce(p, lo + p, a + j * s);
  }

  lemma Collide(p: nat, n: nat, s: nat, r: int, i: nat, j: nat, c: nat)
    requires 0 < n && j == i + c && (c * s) % n == p % n
    ensures (r + i * s) % n == (r + j * s - p) % n
  {
    assert (r + j * s - p) - (r + i * s) == c * s - p;
    CongruentDifference(c * s, p, n);
    CongruentDifference(r + j * s - p, r + i * s, n);
  }

  /**
    The exact condition for even coverage: as long as a window spans less than one lap of the prime, its n points
    land on all n devices exactly once if and only if it does not cross a multiple of the prime.
   */
  lemma SpreadIff(p: nat, n: nat, a: nat, s: nat)
    requires Prime(p) && Prime(s) && 0 < n < s && n < p && (n - 1) * s < p
    ensures ExactlyOnce(Window(p, n, a, s), n) <==> n == 1 || a / p == (a + (n - 1) * s) / p
  {
    MulMono(0, n - 1, s);
    var lo := SameLapIff(p, a, a + (n - 1) * s);
    ExactlyOnceIff(Window(p, n, a, s), n);
    if a + (n - 1) * s < lo + p {
      WindowInLap(p, n, a, s, lo);
    } else if n > 1 {
      WindowAcrossLaps(p, n, a, s, lo);
    } else {
      WindowOfOne(p, a, s);
    }
  }

  lemma WindowOfOne(p: nat, a: nat, s: nat)
    requires 0 < p
    ensures NoDuplicates(Window(p, 1, a, s))
  {
  }

  /** lo is the start of a's lap. */
  lemma SameLapIff(p: nat, a: nat, b: nat) returns (lo: nat)
    requires 0 < p && a <= b
    ensures Divides(p, lo) && lo <= a < lo + p
    ensures a / p == b / p <==> b < lo + p
  {
    lo := (a / p) * p;
    assert a == lo + a % p;
    DivUnique(a / p, 0, p);
    Reduce(p, lo, a);
    assert a / p == b / p ==> b == lo + b % p;
    if b < lo + p {
      Reduce(p, lo, b);
    }
  }

  /** The devices of n consecutive tokens of a layer. */
  ghost function TokenWindow(cfg: Config, layer: nat, token: nat, n: nat): (w: seq<nat>)
    requires 0 < cfg.devices && 0 < cfg.prime
    ensures |w| == n && forall i :: 0 <= i < n ==> w[i] == cfg.Locate(layer, token + i)
  {
    if n == 0 then [] else TokenWindow(cfg, layer, token, n - 1) + [cfg.Locate(layer, token + (n - 1))]
  }

  /** The devices of n consecutive layers of a token. */
  ghost function LayerWindow(cfg: Config, layer: nat, token: nat, n: nat): (w: seq<nat>)
    requires 0 < cfg.devices && 0 < cfg.prime
    ensures |w| == n && forall i :: 0 <= i < n ==> w[i] == cfg.Locate(layer + i, token)
  {
    if n == 0 then [] else LayerWindow(cfg, layer, token, n - 1) + [cfg.Locate(layer + (n - 1), token)]
  }

  lemma LocateSteps(cfg: Config, layer: nat, token: nat, i: nat)
    requires 0 < cfg.devices && 0 < cfg.prime
    ensures cfg.Locate(layer, token + i) == Hash(cfg.prime, cfg.devices, cfg.Position(layer, token) + i * cfg.stepIdx)
    ensures cfg.Locate(layer + i, token) == Hash(cfg.prime, cfg.devices, cfg.Position(layer, token) + i * cfg.stepLayer)
  {
    PositionSteps(cfg, layer, token, i);
  }

  lemma PositionSteps(cfg: Config, layer: nat, token: nat, i: nat)
    ensures cfg.Position(layer, token + i) == cfg.Position(layer, token) + i * cfg.stepIdx
    ensures cfg.Position(layer + i, token) == cfg.Position(layer, token) + i * cfg.stepLayer
  {
  }

  lemma TokenWindowIs(cfg: Config, layer: nat, token: nat)
    requires 0 < cfg.devices && 0 < cfg.prime
    ensures TokenWindow(cfg, layer, token, cfg.devices)
         == Window(cfg.prime, cfg.devices, cfg.Position(layer, token), cfg.stepIdx)
  {
    forall i: nat | i < cfg.devices
      ensures TokenWindow(cfg, layer, token, cfg.devices)[i]
           == Window(cfg.prime, cfg.devices, cfg.Position(layer, token), cfg.stepIdx)[i]
    {
      LocateSteps(cfg, layer, token, i);
    }
  }

  lemma LayerWindowIs(cfg: Config, layer: nat, token: nat)
    requires 0 < cfg.devices && 0 < cfg.prime
    ensures LayerWindow(cfg, layer, token, cfg.devices)
         == Window(cfg.prime, cfg.devices, cfg.Position(layer, token), cfg.stepLayer)
  {
    forall i: nat | i < cfg.devices
      ensures LayerWindow(cfg, layer, token, cfg.devices)[i]
           == Window(cfg.prime, cfg.devices, cfg.Position(layer, token), cfg.stepLayer)[i]
    {
      LocateSteps(cfg, layer, token, i);
    }
  }

  /** Two positions lie in one lap of the prime: no reduction happens between them. */
  predicate OneLap(cfg: Config, a: nat, b: nat)
    requires 0 < cfg.prime
  {
    cfg.devices == 1 || a / cfg.prime == b / cfg.prime
  }

  lemma LongWindow(cfg: Config, a: nat, b: nat)
    requires 0 < cfg.prime && cfg.devices > 1 && a + cfg.prime <= b
    ensures !OneLap(cfg, a, b)
  {
    var lo := SameLapIff(cfg.prime, a, b);
  }

  /**
    N consecutive tokens of a layer cover every device exactly once when they stay in one lap of the prime; and, as long
    as N tokens span less than a whole lap, only then.
   */
  lemma TokenCoverage(cfg: Config, layer: nat, token: nat)
    requires cfg.Ok()
    ensures var once, lap := ExactlyOnce(TokenWindow(cfg, layer, token, cfg.devices), cfg.devices),
                             OneLap(cfg, cfg.Position(layer, token), cfg.Position(layer, token + (cfg.devices - 1)));
      (lap ==> once) && ((cfg.devices - 1) * cfg.stepIdx < cfg.prime ==> (once <==> lap))
  {
    PositionSteps(cfg, layer, token, cfg.devices - 1);
    var a, b := cfg.Position(layer, token), cfg.Position(layer, token + (cfg.devices - 1));
    if (cfg.devices - 1) * cfg.stepIdx < cfg.prime {
      TokenCoverageAt(cfg, layer, token, a, b);
    } else if cfg.devices > 1 {
      LongWindow(cfg, a, b);
    }
  }

  lemma TokenCoverageAt(cfg: Config, layer: nat, token: nat, a: nat, b: nat)
    requires cfg.Ok() && (cfg.devices - 1) * cfg.stepIdx < cfg.prime
    requires a == cfg.Position(layer, token) && b == a + (cfg.devices - 1) * cfg.stepIdx
    ensures ExactlyOnce(TokenWindow(cfg, layer, token, cfg.devices), cfg.devices) <==>
      (cfg.devices == 1 || a / cfg.prime == b / cfg.prime)
  {
    TokenWindowIs(cfg, layer, token);
    SpreadIff(cfg.prime, cfg.devices, a, cfg.stepIdx);
  }

  /** The same for N consecutive layers of one token. */
  lemma LayerCoverage(cfg: Config, layer: nat, token: nat)
    requires cfg.Ok()
    ensures var once, lap := ExactlyOnce(LayerWindow(cfg, layer, token, cfg.devices), cfg.devices),
                             OneLap(cfg, cfg.Position(layer, token), cfg.Position(layer + (cfg.devices - 1), token));
      (lap ==> once) && ((cfg.devices - 1) * cfg.stepLayer < cfg.prime ==> (once <==> lap))
  {
    PositionSteps(cfg, layer, token, cfg.devices - 1);
    var a, b := cfg.Position(layer, token), cfg.Position(layer + (cfg.devices - 1), token);
    if (cfg.devices - 1) * cfg.stepLayer < cfg.prime {
      LayerCoverageAt(cfg, layer, token, a, b);
    } else if cfg.devices > 1 {
      LongWindow(cfg, a, b);
    }
  }

  lemma LayerCoverageAt(cfg: Config, layer: nat, token: nat, a: nat, b: nat)
    requires cfg.Ok() && (cfg.devices - 1) * cfg.stepLayer < cfg.prime
    requires a == cfg.Position(layer, token) && b == a + (cfg.devices - 1) * cfg.stepLayer
    ensures ExactlyOnce(LayerWindow(cfg, layer, token, cfg.devices), cfg.devices) <==>
      (cfg.devices == 1 || a / cfg.prime == b / cfg.prime)
  {
    LayerWindowIs(cfg, layer, token);
    SpreadIff(cfg.prime, cfg.devices, a, cfg.stepLayer);
  }

  // ---------- inputs on either side of the condition ----------

  /** A window that changes laps: two devices, and tokens 2 and 3 of layer 0 both go to device 0. */
  lemma WrapCollides()
    ensures var cfg := Config(2, 3, 5, 7);
      cfg.Ok() && cfg.Locate(0, 2) == 0 && cfg.Locate(0, 3) == 0 && !ExactlyOnce(TokenWindow(cfg, 0, 2, 2), 2)
  {
    var cfg := Config(2, 3, 5, 7);
    SmallPrimes();
    assert cfg.Locate(0, 2) == 0 && cfg.Locate(0, 3) == 0;
    TokenCoverage(cfg, 0, 2);
  }

  /** Steps that span a whole lap can cover every device all the same: three devices, token 1, layers 2 to 4. */
  lemma LongWindowCovers()
    ensures var cfg := Config(3, 5, 7, 11);
      && cfg.Ok() && !OneLap(cfg, cfg.Position(2, 1), cfg.Position(4, 1))
      && LayerWindow(cfg, 2, 1, 3) == [2, 1, 0] && ExactlyOnce(LayerWindow(cfg, 2, 1, 3), 3)
  {
    var cfg := Config(3, 5, 7, 11);
    SmallPrimes();
    var w := LayerWindow(cfg, 2, 1, 3);
    assert w[0] == 2 && w[1] == 1 && w[2] == 0;
    assert w == [2, 1, 0];
    ExactlyOnceIff(w, 3);
  }

  lemma SmallPrimes()
    ensures Prime(3) && Prime(5) && Prime(7) && Prime(11)
  {
    SmallPrime(3);
    SmallPrime(5);
    SmallPrime(7);
    SmallPrime(11);
  }

  lemma SmallPrime(n: nat)
    requires n == 3 || n == 5 || n == 7 || n == 11
    ensures Prime(n)
  {
    forall d | 2 <= d < n
      ensures !Divides(d, n)
    {
      if d == 2 {} else if d == 3 {} else if d == 4 {} else if d == 5 {} else if d == 6 {}
      else if d == 7 {} else if d == 8 {} else if d == 9 {} else {}
    }
  }

  /**
    What a configured domain buys: inside it every N consecutive tokens and every N consecutive layers cover all
    devices.
   */
  lemma DomainCovers(cfg: Config, maxToken: nat, maxLayer: nat, layer: nat, token: nat)
    requires cfg.Ok() && maxToken * cfg.stepIdx + maxLayer * cfg.stepLayer < cfg.prime
    ensures layer <= maxLayer && token + (cfg.devices - 1) <= maxToken ==>
      ExactlyOnce(TokenWindow(cfg, layer, token, cfg.devices), cfg.devices)
    ensures layer + (cfg.devices - 1) <= maxLayer && token <= maxToken ==>
      ExactlyOnce(LayerWindow(cfg, layer, token, cfg.devices), cfg.devices)
  {
    hide Prime, TokenWindow, LayerWindow, Config.Position, ExactlyOnce;
    if layer <= maxLayer && token + (cfg.devices - 1) <= maxToken {
      TokenCoverage(cfg, layer, token);
      InDomain(cfg, maxToken, maxLayer, layer, token);
      InDomain(cfg, maxToken, maxLayer, layer, token + (cfg.devices - 1));
    }
    if layer + (cfg.devices - 1) <= maxLayer && token <= maxToken {
      LayerCoverage(cfg, layer, token);
      InDomain(cfg, maxToken, maxLayer, layer, token);
      InDomain(cfg, maxToken, maxLayer, layer + (cfg.devices - 1), token);
    }
  }

  lemma InDomain(cfg: Config, maxToken: nat, maxLayer: nat, layer: nat, token: nat)
    requires 0 < cfg.prime && maxToken * cfg.stepIdx + maxLayer * cfg.stepLayer < cfg.prime && layer <= maxLayer
    requires token <= maxToken
    ensures cfg.Position(layer, token) / cfg.prime == 0
  {
    MulMono(token, maxToken, cfg.stepIdx);
    MulMono(layer, maxLayer, cfg.stepLayer);
    DivUnique(0, cfg.Position(layer, token), cfg.prime);
  }

  // ---------- balance ----------

  /** How many of len tokens of a layer, from start on, land on device d. */
  function Count(cfg: Config, layer: nat, start: nat, len: nat, d: nat): nat
    requires 0 < cfg.devices && 0 < cfg.prime
  {
    if len == 0 then 0
    else Count(cfg, layer, start, len - 1, d) + (if cfg.Locate(layer, start + (len - 1)) == d then 1 else 0)
  }

  lemma {:induction false} CountSplit(cfg: Config, layer: nat, start: nat, m: nat, n: nat, d: nat)
    requires 0 < cfg.devices && 0 < cfg.prime
    ensures Count(cfg, layer, start, m + n, d) == Count(cfg, layer, start, m, d) + Count(cfg, layer, start + m, n, d)
  {
    if n > 0 {
      CountSplit(cfg, layer, start, m, n - 1, d);
    }
  }

  /** The domain check of the constructor: no key of this range is reduced by the prime. */
  ghost predicate NoWrap(cfg: Config, layer: nat, end: nat) {
    cfg.Position(layer, end) < cfg.prime
  }

  lemma NoWrapBelow(cfg: Config, layer: nat, start: nat, end: nat)
    requires NoWrap(cfg, layer, end) && start <= end
    ensures NoWrap(cfg, layer, start)
  {
    MulMono(start, end, cfg.stepIdx);
  }

  lemma LocateNoWrap(cfg: Config, layer: nat, start: nat, i: nat)
    requires cfg.Ok() && NoWrap(cfg, layer, start + i)
    ensures cfg.Locate(layer, start + i) == (cfg.Position(layer, start) + i * cfg.stepIdx) % cfg.devices
  {
    PositionSteps(cfg, layer, start, i);
    DivUnique(0, cfg.Position(layer, start + i), cfg.prime);
  }

  /** If token start + m goes to d, none of the fewer than N tokens before it does. */
  lemma {:induction false} CountNone(cfg: Config, layer: nat, start: nat, m: nat, k: nat, d: nat)
    requires cfg.Ok() && NoWrap(cfg, layer, start + m) && k <= m < cfg.devices && cfg.Locate(layer, start + m) == d
    ensures Count(cfg, layer, start, k, d) == 0
  {
    hide Prime, NoWrap, Config.Locate;
    if k > 0 {
      CountNone(cfg, layer, start, m, k - 1, d);
      DifferentHomes(cfg, layer, start, k - 1, m);
    }
  }

  lemma DifferentHomes(cfg: Config, layer: nat, start: nat, i: nat, m: nat)
    requires cfg.Ok() && NoWrap(cfg, layer, start + m) && i < m < cfg.devices
    ensures cfg.Locate(layer, start + i) != cfg.Locate(layer, start + m)
  {
    NoWrapBelow(cfg, layer, start + i, start + m);
    LocateNoWrap(cfg, layer, start, i);
    LocateNoWrap(cfg, layer, start, m);
    hide Prime, Config.Locate, NoWrap;
    ProgressionInjective(cfg.Position(layer, start), cfg.stepIdx, cfg.devices, i, m);
  }

  /** Among at most N consecutive tokens a device is hit at most once. */
  lemma {:induction false} CountShort(cfg: Config, layer: nat, start: nat, len: nat, d: nat)
    requires cfg.Ok() && NoWrap(cfg, layer, start + len) && len <= cfg.devices
    ensures Count(cfg, layer, start, len, d) <= 1
  {
    if len > 0 {
      NoWrapBelow(cfg, layer, start + (len - 1), start + len);
      CountShort(cfg, layer, start, len - 1, d);
      if cfg.Locate(layer, start + (len - 1)) == d {
        CountNone(cfg, layer, start, len - 1, len - 1, d);
      }
    }
  }

  /** Among N consecutive tokens a device is hit exactly once. */
  lemma CountFull(cfg: Config, layer: nat, start: nat, d: nat)
    requires cfg.Ok() && NoWrap(cfg, layer, start + cfg.devices) && d < cfg.devices
    ensures Count(cfg, layer, start, cfg.devices, d) == 1
  {
    var n := cfg.devices;
    CountShort(cfg, layer, start, n, d);
    var i := ProgressionHits(cfg.Position(layer, start), cfg.stepIdx, n, d);
    NoWrapBelow(cfg, layer, start + i, start + n);
    LocateNoWrap(cfg, layer, start, i);
    CountSplit(cfg, layer, start, i + 1, n - i - 1, d);
  }

  /** Without wrapping, every device gets the floor or the ceiling of len / N of any len consecutive tokens. */
  lemma {:induction false} CountBalanced(cfg: Config, layer: nat, start: nat, len: nat, d: nat)
    requires cfg.Ok() && NoWrap(cfg, layer, start + len) && d < cfg.devices
    ensures len / cfg.devices <= Count(cfg, layer, start, len, d) <= CeilDiv(len, cfg.devices)
    decreases len
  {
    var n := cfg.devices;
    if len < n {
      CountShort(cfg, layer, start, len, d);
      DivUnique(0, len, n);
      if len == 0 {
        assert Count(cfg, layer, start, len, d) == 0;
      }
    } else {
      NoWrapBelow(cfg, layer, start + n, start + len);
      CountSplit(cfg, layer, start, n, len - n, d);
      CountFull(cfg, layer, start, d);
      assert start + n + (len - n) == start + len;
      CountBalanced(cfg, layer, start + n, len - n, d);
      DivStep(len - n, n);
    }
  }

  lemma DivStep(m: nat, n: nat)
    requires 0 < n
    ensures (m + n) / n == m / n + 1
    ensures CeilDiv(m + n, n) == CeilDiv(m, n) + 1
  {
    assert m + n == (m / n + 1) * n + m % n;
    DivUnique(m / n + 1, m % n, n);
    CeilDivLeast(m + n, n, CeilDiv(m, n) + 1);
    CeilDivLeast(m, n, CeilDiv(m + n, n) - 1);
  }
}
