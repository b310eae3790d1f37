/**
 How a container turns the hash of a key into a server index.  A hash is a size_t (64 bits), a server index a
 uint16_t, and num_servers a positive int.
 */
module Routing {
  const TWO16: int := 0x1_0000
  const TWO64: int := 0x1_0000_0000_0000_0000

  /** uint16_t, the type of my_server and of the server argument of an RPC. */
  type ServerIndex = x: nat | x < TWO16

  ghost predicate HashValue(h: int) { 0 <= h < TWO64 }

  ghost predicate ServerCount(n: int) { 1 <= n < 0x8000_0000 }

  /** `static_cast<uint16_t>(keyHash(key) % num_servers)`: every route of map, multimap and set, and Get and Erase of
      unordered_map. */
  function ModThenCast(h: int, n: int): (r: int)
    requires n >= 1
    ensures 0 <= r < n && r < TWO16
  {
    assert 0 <= h % n < n;
    (h % n) % TWO16
  }

  /** `(uint16_t)keyHash(key) % num_servers`: Put of unordered_map.  The cast binds tighter than the remainder. */
  function CastThenMod(h: int, n: int): (r: int)
    requires n >= 1
    ensures 0 <= r < n && r < TWO16
  {
    assert 0 <= h % TWO16 < TWO16;
    (h % TWO16) % n
  }

  ghost predicate Divides(d: int, x: int)
    requires d >= 1
  {
    x % d == 0
  }

  lemma DivMod(a: int, d: int)
    requires d >= 1
    ensures a == d * (a / d) + a % d
  {
  }

  lemma MultiplesSpread(d: int, k: int)
    requires d >= 1
    ensures k >= 1 ==> d * k >= d
    ensures k <= -1 ==> d * k <= -d
  {
  }

  lemma ModUnique(a: int, d: int, q: int, r: int)
    requires d >= 1 && a == d * q + r && 0 <= r < d
    ensures a % d == r
  {
    DivMod(a, d);
    var k := q - a / d;
    assert d * k == a % d - r by {
      assert d * k == d * q - d * (a / d);
    }
    MultiplesSpread(d, k);
  }

  lemma SameRemainder(a: int, b: int, d: int)
    requires d >= 1
    ensures a % d == b % d <==> Divides(d, a - b)
  {
    DivMod(a, d);
    DivMod(b, d);
    if a % d == b % d {
      assert a - b == d * (a / d - b / d) + 0;
      ModUnique(a - b, d, a / d - b / d, 0);
    }
    if Divides(d, a - b) {
      DivMod(a - b, d);
      var q := (a - b) / d + b / d;
      assert d * q == d * ((a - b) / d) + d * (b / d);
      ModUnique(a, d, q, b % d);
    }
  }

  /** A multiple of a multiple of d is a multiple of d. */
  lemma DividesTransitive(d: int, e: int, x: int)
    requires d >= 1 && e >= 1 && Divides(d, e) && Divides(e, x)
    ensures Divides(d, x)
  {
    DivMod(e, d);
    DivMod(x, e);
    assert x == d * ((e / d) * (x / e)) + 0 by {
      assert x == e * (x / e);
      assert e == d * (e / d);
      assert (d * (e / d)) * (x / e) == d * ((e / d) * (x / e));
    }
    ModUnique(x, d, (e / d) * (x / e), 0);
  }

  lemma DroppedPart(h: int, d: int)
    requires d >= 1
    ensures Divides(d, h - h % d)
  {
    DivMod(h, d);
    ModUnique(h - h % d, d, h / d, 0);
  }

  /** Two remainders taken in either order agree exactly when the larger modulus drops a multiple of the smaller. */
  lemma RemaindersCommute(h: int, a: int, b: int)
    requires 1 <= a <= b
    ensures (h % b) % a == (h % a) % b <==> Divides(a, h - h % b)
  {
    assert 0 <= h % a < a;
    ModUnique(h % a, b, 0, h % a);
    SameRemainder(h, h % b, a);
  }

  /** When the two routes of one hash agree. */
  lemma RoutesAgreeIff(h: int, n: int)
    requires HashValue(h) && ServerCount(n)
    ensures CastThenMod(h, n) == ModThenCast(h, n) <==>
            if n <= TWO16 then Divides(n, h - h % TWO16) else Divides(TWO16, h - h % n)
  {
    if n <= TWO16 {
      RemaindersCommute(h, n, TWO16);
    } else {
      RemaindersCommute(h, TWO16, n);
    }
  }

  ghost predicate AlwaysAgree(n: int)
    requires n >= 1
  {
    forall h :: HashValue(h) ==> CastThenMod(h, n) == ModThenCast(h, n)
  }

  /** The two routes agree for every hash exactly when one of num_servers and 65536 divides the other. */
  lemma RoutesAlwaysAgreeIff(n: int)
    requires ServerCount(n)
    ensures AlwaysAgree(n) <==> Divides(n, TWO16) || Divides(TWO16, n)
    ensures n <= TWO16 ==> (AlwaysAgree(n) <==> Divides(n, TWO16))
  {
    if Divides(n, TWO16) || Divides(TWO16, n) {
      forall h | HashValue(h) ensures CastThenMod(h, n) == ModThenCast(h, n) {
        DivisorsAgree(h, n);
      }
    }
    if AlwaysAgree(n) {
      ZeroRoute(n);
    }
    LargerDoesNotDivide(n, TWO16);
  }

  function Pow2(k: nat): (p: int)
    ensures p >= 1
  {
    if k == 0 then 1 else 2 * Pow2(k - 1)
  }

  ghost predicate PowerOfTwo(n: int) {
    exists k :: n == Pow2(k)
  }

  /** The divisors of a power of two are the smaller powers of two. */
  lemma {:induction false} DivisorsOfPow2(n: int, k: nat)
    requires n >= 1
    ensures Divides(n, Pow2(k)) <==> exists i :: 0 <= i <= k && n == Pow2(i)
    decreases k
  {
    if Divides(n, Pow2(k)) {
      var i := DivisorIsPow2(n, k);
    }
    if i :| 0 <= i <= k && n == Pow2(i) {
      Pow2Divides(i, k);
    }
  }

  lemma {:induction false} Pow2Divides(i: nat, k: nat)
    requires i <= k
    ensures Divides(Pow2(i), Pow2(k))
    decreases k
  {
    if i == k {
      ModUnique(Pow2(k), Pow2(i), 1, 0);
    } else {
      Pow2Divides(i, k - 1);
      var q := Pow2(k - 1) / Pow2(i);
      DivMod(Pow2(k - 1), Pow2(i));
      assert Pow2(k) == Pow2(i) * (2 * q) + 0;
      ModUnique(Pow2(k), Pow2(i), 2 * q, 0);
    }
  }

  lemma {:induction false} DivisorIsPow2(n: int, k: nat) returns (i: nat)
    requires n >= 1 && Divides(n, Pow2(k))
    ensures i <= k && n == Pow2(i)
    decreases k
  {
    var q := Pow2(k) / n;
    DivMod(Pow2(k), n);
    if k == 0 {
      MultiplesSpread(n, q);
      i := 0;
    } else if n % 2 == 0 {
      HalveFactor(n, q, Pow2(k - 1));
      ModUnique(Pow2(k - 1), n / 2, q, 0);
      i := DivisorIsPow2(n / 2, k - 1);
      i := i + 1;
    } else {
      EvenProduct(n, q);
      HalveFactor(q, n, Pow2(k - 1));
      ModUnique(Pow2(k - 1), n, q / 2, 0);
      i := DivisorIsPow2(n, k - 1);
    }
  }

  /** A product with an odd factor has the parity of the other one. */
  lemma EvenProduct(a: int, b: int)
    requires a % 2 == 1
    ensures (a * b) % 2 == b % 2
  {
    var x := a / 2;
    Distribute(x, b);
    assert a == 2 * x + 1;
    SameParity(x * b, b);
  }

  lemma HalveFactor(a: int, b: int, p: int)
    requires a % 2 == 0 && a * b == 2 * p
    ensures (a / 2) * b == p
  {
    var h := a / 2;
    assert a == 2 * h;
    assert (2 * h) * b == 2 * (h * b);
  }

  lemma Distribute(x: int, b: int)
    ensures (2 * x + 1) * b == 2 * (x * b) + b
  {
  }

  lemma SameParity(p: int, b: int)
    ensures (2 * p + b) % 2 == b % 2
  {
  }

  /** Up to 65536 servers the two routes agree for every hash exactly when num_servers is a power of two. */
  lemma RoutesAgreeForPowersOfTwo(n: int)
    requires 1 <= n <= TWO16
    ensures AlwaysAgree(n) <==> PowerOfTwo(n)
  {
    RoutesAlwaysAgreeIff(n);
    assert Pow2(4) == 16 && Pow2(8) == 256 && Pow2(12) == 4096;
    assert Pow2(16) == TWO16;
    DivisorsOfPow2(n, 16);
    if k :| n == Pow2(k) && k > 16 {
      Pow2Grows(16, k);
    }
  }

  lemma {:induction false} Pow2Grows(i: nat, k: nat)
    requires i < k
    ensures Pow2(i) < Pow2(k)
    decreases k
  {
    if i < k - 1 { Pow2Grows(i, k - 1); }
  }

  lemma DivisorsAgree(h: int, n: int)
    requires HashValue(h) && ServerCount(n)
    requires Divides(n, TWO16) || Divides(TWO16, n)
    ensures CastThenMod(h, n) == ModThenCast(h, n)
  {
    if Divides(n, TWO16) {
      DroppedPart(h, TWO16);
      DividesTransitive(n, TWO16, h - h % TWO16);
      LargerDoesNotDivide(TWO16, n);
      RemaindersCommute(h, n, TWO16);
    } else {
      DroppedPart(h, n);
      DividesTransitive(TWO16, n, h - h % n);
      LargerDoesNotDivide(n, TWO16);
      RemaindersCommute(h, TWO16, n);
    }
  }

  /** The larger of the two moduli, taken as a hash, goes to 0 by one route. */
  lemma ZeroRoute(n: int)
    requires ServerCount(n) && AlwaysAgree(n)
    ensures Divides(n, TWO16) || Divides(TWO16, n)
  {
    var h := if n <= TWO16 then TWO16 else n;
    assert HashValue(h);
    RoutesAgreeIff(h, n);
  }

  lemma LargerDoesNotDivide(d: int, e: int)
    requires d >= 1 && e >= 1
    ensures e < d ==> !Divides(d, e)
  {
    if e < d {
      ModUnique(e, d, 0, e);
    }
  }

  /** Three servers: a key with hash 65536 is stored on server 0 and looked up on server 1. */
  lemma ThreeServersDisagree()
    ensures CastThenMod(65536, 3) == 0 && ModThenCast(65536, 3) == 1
    ensures !AlwaysAgree(3)
  {
    assert HashValue(65536);
    RoutesAlwaysAgreeIff(3);
  }
}
