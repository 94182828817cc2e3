/** The Wilson score interval of the sweep report, over the reals.  The square root is an input `root` that squares
    to the radicand; everything below holds for it, so the endpoints are determined without naming a root. */
module Wilson {

  /** The quantities of the source, for k successes in n > 0 trials. */
  function P(k: nat, n: nat): real
    requires n > 0
  {
    k as real / n as real
  }

  function Denom(n: nat, z: real): real
    requires n > 0
  {
    1.0 + z * z / n as real
  }

  function Center(k: nat, n: nat, z: real): real
    requires n > 0 && Denom(n, z) > 0.0
  {
    (P(k, n) + z * z / (2.0 * n as real)) / Denom(n, z)
  }

  function Radicand(k: nat, n: nat, z: real): real
    requires n > 0
  {
    RadicandOf(P(k, n), n as real, z)
  }

  function RadicandOf(p: real, m: real, z: real): real
    requires m > 0.0
  {
    p * (1.0 - p) / m + z * z / (4.0 * m * m)
  }

  ghost predicate IsRoot(root: real, k: nat, n: nat, z: real)
    requires n > 0
  {
    root >= 0.0 && root * root == Radicand(k, n, z)
  }

  function Lo(k: nat, n: nat, z: real, root: real): real
    requires n > 0 && Denom(n, z) > 0.0
  {
    Center(k, n, z) - z * root / Denom(n, z)
  }

  function Hi(k: nat, n: nat, z: real, root: real): real
    requires n > 0 && Denom(n, z) > 0.0
  {
    Center(k, n, z) + z * root / Denom(n, z)
  }

  /** What the source returns, with its two clamps. */
  function WilsonCi(k: nat, n: nat, z: real, root: real): (real, real)
    requires n > 0 ==> Denom(n, z) > 0.0
  {
    if n == 0 then (0.0, 0.0) else
      var lo, hi := Lo(k, n, z, root), Hi(k, n, z, root);
      (if lo > 0.0 then lo else 0.0, if hi < 1.0 then hi else 1.0)
  }

  // ---------------------------------------------------------------- the quadratic behind the interval
  // With a = z^2/n and h = z*root, the endpoints are (p + a/2 -+ h) / (1 + a), where h^2 = a*p*(1-p) + a^2/4.

  function Quadratic(p: real, a: real, x: real): real {
    (p - x) * (p - x) - a * x * (1.0 - x)
  }

  lemma ProductSign(x: real, y: real)
    requires x >= 0.0 && y >= 0.0
    ensures x * y >= 0.0
  {
  }

  /** The roots are exactly the two endpoints. */
  lemma RootsAre(p: real, a: real, h: real, lo: real, hi: real, x: real)
    requires a >= 0.0 && h * h == a * p * (1.0 - p) + a * a / 4.0
    requires (1.0 + a) * lo == p + a / 2.0 - h && (1.0 + a) * hi == p + a / 2.0 + h
    ensures Quadratic(p, a, x) == 0.0 <==> x == lo || x == hi
  {
  }

  lemma Order(q: real, x: real, y: real)
    requires q > 0.0
    ensures x <= y <==> q * x <= q * y
  {
  }

  lemma Divide(x: real, q: real, c: real)
    requires q > 0.0
    ensures x == c / q <==> q * x == c
  {
  }

  /** b >= h and q - b >= h, the two facts that make the clamps redundant, and (q*p - b)^2 <= h^2 for the bracket. */
  ghost predicate HalfWidth(p: real, a: real, h: real) {
    0.0 <= p <= 1.0 && a >= 0.0 && h >= 0.0 && h * h == a * p * (1.0 - p) + a * a / 4.0
  }

  lemma NotBelowZero(p: real, a: real, h: real)
    requires HalfWidth(p, a, h)
    ensures h <= p + a / 2.0
  {
    assert Quadratic(p, a, 0.0) == p * p;
    ProductSign(1.0 + a, p * p);
    var y := -p - a / 2.0;
    assert y * y == (-y) * (-y);
    SquareOrder(h, -y);
  }

  lemma NotAboveOne(p: real, a: real, h: real)
    requires HalfWidth(p, a, h)
    ensures h <= 1.0 + a - (p + a / 2.0)
  {
    assert Quadratic(p, a, 1.0) == (p - 1.0) * (p - 1.0);
    ProductSign(1.0 + a, (p - 1.0) * (p - 1.0));
    SquareOrder(h, 1.0 + a - p - a / 2.0);
  }

  lemma AroundTheShare(p: real, a: real, h: real)
    requires HalfWidth(p, a, h)
    ensures -h <= (1.0 + a) * p - (p + a / 2.0) <= h
  {
    assert Quadratic(p, a, p) == -(a * p * (1.0 - p));
    ProductSign(a, p);
    ProductSign(a * p, 1.0 - p);
    ProductSign(1.0 + a, a * p * (1.0 - p));
    var y := (1.0 + a) * p - p - a / 2.0;
    assert y * y <= h * h;
    assert (-y) * (-y) == y * y;
    hide Quadratic;
    if y >= 0.0 { SquareOrder(y, h); } else { SquareOrder(-y, h); }
  }

  lemma Bounds(p: real, a: real, h: real)
    requires HalfWidth(p, a, h)
    ensures h <= p + a / 2.0
    ensures h <= 1.0 + a - (p + a / 2.0)
    ensures -h <= (1.0 + a) * p - (p + a / 2.0) <= h
  {
    hide HalfWidth;
    NotBelowZero(p, a, h);
    NotAboveOne(p, a, h);
    AroundTheShare(p, a, h);
  }

  lemma SquareOrder(x: real, y: real)
    requires x >= 0.0 && y >= 0.0 && x * x <= y * y
    ensures x <= y
  {
    if x + y > 0.0 {
      Order(x + y, x - y, 0.0);
      assert (x + y) * (x - y) == x * x - y * y;
    }
  }

  // ---------------------------------------------------------------- back to the source's expressions

  /** The source's intermediate values in terms of p, a and h. */
  lemma InTermsOf(k: nat, n: nat, z: real, root: real)
    requires n > 0 && k <= n && IsRoot(root, k, n, z)
    ensures var p, a, h := P(k, n), z * z / n as real, z * root;
            && 0.0 <= p <= 1.0 && a >= 0.0 && Denom(n, z) == 1.0 + a
            && h * h == a * p * (1.0 - p) + a * a / 4.0
            && (1.0 + a) * Lo(k, n, z, root) == p + a / 2.0 - h
            && (1.0 + a) * Hi(k, n, z, root) == p + a / 2.0 + h
  {
    var p, m, a, h := P(k, n), n as real, z * z / n as real, z * root;
    Divide(a, m, z * z);
    Order(m, 0.0, a);
    Divide(p, m, k as real);
    Order(m, 0.0, p);
    Order(m, p, 1.0);
    HalfOf(z * z, m, a);
    SquaredHalf(k, n, z, root);
    var q := 1.0 + a;
    Divide((p + a / 2.0) / q, q, p + a / 2.0);
    Divide(h / q, q, h);
    var c, d := (p + a / 2.0) / q, h / q;
    assert q * (c - d) == q * c - q * d;
    assert q * (c + d) == q * c + q * d;
  }

  lemma HalfOf(s: real, m: real, a: real)
    requires m > 0.0 && a == s / m
    ensures s / (2.0 * m) == a / 2.0
  {
  }

  lemma SquaredHalf(k: nat, n: nat, z: real, root: real)
    requires n > 0 && IsRoot(root, k, n, z)
    ensures var p, a, h := P(k, n), z * z / n as real, z * root;
            h * h == a * p * (1.0 - p) + a * a / 4.0
  {
  }

  lemma Bracket(b: real, h: real, q: real, p: real, lo: real, hi: real)
    requires q > 0.0 && h <= b && h <= q - b && -h <= q * p - b <= h && q * lo == b - h && q * hi == b + h
    ensures 0.0 <= lo <= p <= hi <= 1.0
  {
    Below(q, 0.0, lo, 0.0, b - h);
    Below(q, lo, p, b - h, q * p);
    Below(q, p, hi, q * p, b + h);
    Below(q, hi, 1.0, b + h, q);
  }

  lemma Below(q: real, x: real, y: real, qx: real, qy: real)
    requires q > 0.0 && q * x == qx && q * y == qy && qx <= qy
    ensures x <= y
  {
  }

  /** Both clamps are redundant: the unclamped endpoints already lie in [0, 1], and they bracket k/n. */
  lemma ClampsAreRedundant(k: nat, n: nat, z: real, root: real)
    requires n > 0 && k <= n && z >= 0.0 && IsRoot(root, k, n, z)
    ensures Denom(n, z) > 0.0
    ensures 0.0 <= Lo(k, n, z, root) <= P(k, n) <= Hi(k, n, z, root) <= 1.0
    ensures WilsonCi(k, n, z, root) == (Lo(k, n, z, root), Hi(k, n, z, root))
  {
    Endpoints(k, n, z, root);
    hide P, Lo, Hi;
  }

  lemma Endpoints(k: nat, n: nat, z: real, root: real)
    requires n > 0 && k <= n && z >= 0.0 && IsRoot(root, k, n, z)
    ensures Denom(n, z) > 0.0
    ensures 0.0 <= Lo(k, n, z, root) <= P(k, n) <= Hi(k, n, z, root) <= 1.0
  {
    hide P, Radicand, Lo, Hi, Denom;
    InTermsOf(k, n, z, root);
    ProductSign(z, root);
    Enclosed(P(k, n), z * z / n as real, z * root, Lo(k, n, z, root), Hi(k, n, z, root));
  }

  lemma Enclosed(p: real, a: real, h: real, lo: real, hi: real)
    requires 0.0 <= p <= 1.0 && a >= 0.0 && h >= 0.0 && h * h == a * p * (1.0 - p) + a * a / 4.0
    requires (1.0 + a) * lo == p + a / 2.0 - h && (1.0 + a) * hi == p + a / 2.0 + h
    ensures 0.0 <= lo <= p <= hi <= 1.0
  {
    Bounds(p, a, h);
    Bracket(p + a / 2.0, h, 1.0 + a, p, lo, hi);
  }

  ghost predicate ScoreEquation(p: real, zz: real, m: real, x: real)
    requires m > 0.0
  {
    (p - x) * (p - x) == zz * (x * (1.0 - x)) / m
  }

  /** The endpoints are exactly the solutions of (k/n - x)^2 = z^2 * x(1-x)/n. */
  lemma EndpointsSolveScoreEquation(k: nat, n: nat, z: real, root: real, x: real)
    requires n > 0 && k <= n && IsRoot(root, k, n, z)
    ensures Denom(n, z) > 0.0
    ensures ScoreEquation(P(k, n), z * z, n as real, x) <==> x == Lo(k, n, z, root) || x == Hi(k, n, z, root)
  {
    InTermsOf(k, n, z, root);
    var p, m, a := P(k, n), n as real, z * z / n as real;
    hide Quadratic, Lo, Hi, Radicand, P, Denom, ScoreEquation;
    RootsAre(p, a, z * root, Lo(k, n, z, root), Hi(k, n, z, root), x);
    ScoreForm(p, a, m, z * z, x);
  }

  lemma ScoreForm(p: real, a: real, m: real, s: real, x: real)
    requires m > 0.0 && a == s / m
    ensures Quadratic(p, a, x) == 0.0 <==> ScoreEquation(p, s, m, x)
  {
  }

  /** Counting failures instead of successes mirrors the interval. */
  lemma FailuresMirrorSuccesses(k: nat, n: nat, z: real, root: real)
    requires n > 0 && k <= n && IsRoot(root, k, n, z)
    ensures IsRoot(root, n - k, n, z) && Denom(n, z) > 0.0
    ensures Lo(n - k, n, z, root) == 1.0 - Hi(k, n, z, root)
    ensures Hi(n - k, n, z, root) == 1.0 - Lo(k, n, z, root)
  {
    var p, m := P(k, n), n as real;
    ShareMirror(k, n);
    RadicandMirror(p, m, z);
    InTermsOf(k, n, z, root);
    InTermsOf(n - k, n, z, root);
    var a, h := z * z / m, z * root;
    hide P, Lo, Hi, Denom, Radicand, RadicandOf, IsRoot;
    Mirror(1.0 + a, p + a / 2.0 + h, Hi(k, n, z, root), Lo(n - k, n, z, root));
    Mirror(1.0 + a, p + a / 2.0 - h, Lo(k, n, z, root), Hi(n - k, n, z, root));
  }

  lemma ShareMirror(k: nat, n: nat)
    requires n > 0 && k <= n
    ensures P(n - k, n) == 1.0 - P(k, n)
  {
    var p, m := P(k, n), n as real;
    Divide(p, m, k as real);
    assert m * (1.0 - p) == (n - k) as real;
    Divide(1.0 - p, m, (n - k) as real);
  }

  lemma RadicandMirror(p: real, m: real, z: real)
    requires m > 0.0
    ensures RadicandOf(1.0 - p, m, z) == RadicandOf(p, m, z)
  {
  }

  lemma SameFactor(q: real, y: real, w: real)
    requires q > 0.0 && q * y == q * w
    ensures y == w
  {
    assert q * (y - w) == 0.0;
  }

  lemma Mirror(q: real, c: real, x: real, y: real)
    requires q > 0.0 && q * x == c && q * y == q - c
    ensures y == 1.0 - x
  {
    var w := 1.0 - x;
    assert q * w == q - q * x;
    assert q * w == q - c;
    SameFactor(q, y, w);
  }
}
