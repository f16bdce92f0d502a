/** The limiter's Redis keys (`rate_limit.py`): one string per bucket, identifier and
    window, and why no two of those ever share one. */
module RateKeys {

  const KEY_PREFIX := "ratelimit:"

  function Digit(n: nat): char
    requires n < 10
  {
    "0123456789"[n]
  }

  function Decimal(n: nat): string {
    if n < 10 then [Digit(n)] else Decimal(n / 10) + [Digit(n % 10)]
  }

  function Key(bucket: string, identifier: string, index: nat): string {
    KEY_PREFIX + bucket + ":" + identifier + ":" + Decimal(index)
  }

  predicate OneColon(s: string) {
    exists i :: 0 <= i < |s| && s[i] == ':' && ':' !in s[..i] && ':' !in s[i + 1..]
  }

  // ---- decimals ------------------------------------------------------------------------

  lemma {:induction false} DecimalHasNoColon(n: nat)
    ensures ':' !in Decimal(n) && |Decimal(n)| > 0
  {
    if n >= 10 {
      DecimalHasNoColon(n / 10);
    }
  }

  lemma {:induction false} DecimalIsInjective(m: nat, n: nat)
    requires Decimal(m) == Decimal(n)
    ensures m == n
  {
    var s := Decimal(m);
    DecimalHasNoColon(m / 10);
    DecimalHasNoColon(n / 10);
    if m >= 10 && n >= 10 {
      assert s[..|s| - 1] == Decimal(m / 10) == Decimal(n / 10);
      DecimalIsInjective(m / 10, n / 10);
      assert Digit(m % 10) == s[|s| - 1] == Digit(n % 10);
    }
  }

  // ---- keys ----------------------------------------------------------------------------

  /** Two strings split at the first colon after a colon-free head agree on the head. */
  lemma SplitFirst(a: string, x: string, b: string, y: string)
    requires ':' !in a && ':' !in b && a + ":" + x == b + ":" + y
    ensures a == b && x == y
  {
    var s := a + ":" + x;
    assert s[|a|] == ':' && s[|b|] == ':';
    assert forall k :: 0 <= k < |a| ==> s[k] == a[k];
    assert forall k :: 0 <= k < |b| ==> s[k] == b[k];
    assert |a| == |b|;
    assert s[..|a|] == a && s[..|b|] == b;
    assert s[|a| + 1..] == x && s[|b| + 1..] == y;
  }

  lemma SplitLast(x: string, a: string, y: string, b: string)
    requires ':' !in a && ':' !in b && x + ":" + a == y + ":" + b
    ensures x == y && a == b
  {
    var s := x + ":" + a;
    assert s[|x|] == ':' && s[|y|] == ':';
    assert forall k :: |x| < k < |s| ==> s[k] == a[k - |x| - 1];
    assert forall k :: |y| < k < |s| ==> s[k] == b[k - |y| - 1];
    assert |x| == |y|;
    assert s[..|x|] == x && s[..|y|] == y;
    assert s[|x| + 1..] == a && s[|y| + 1..] == b;
  }

  lemma AtItsColon(a: string, x: string, i: nat)
    requires i < |a| && a[i] == ':'
    ensures a + ":" + x == a[..i] + ":" + (a[i + 1..] + ":" + x)
    ensures a == a[..i] + ":" + a[i + 1..]
  {}

  lemma SplitBucket(a: string, x: string, b: string, y: string)
    requires OneColon(a) && OneColon(b) && a + ":" + x == b + ":" + y
    ensures a == b && x == y
  {
    var i :| 0 <= i < |a| && a[i] == ':' && ':' !in a[..i] && ':' !in a[i + 1..];
    var j :| 0 <= j < |b| && b[j] == ':' && ':' !in b[..j] && ':' !in b[j + 1..];
    AtItsColon(a, x, i);
    AtItsColon(b, y, j);
    SplitFirst(a[..i], a[i + 1..] + ":" + x, b[..j], b[j + 1..] + ":" + y);
    SplitFirst(a[i + 1..], x, b[j + 1..], y);
  }

  /** Whatever the identifiers contain, colons included, keys of different buckets,
      identifiers or windows are different, as long as each bucket has one colon. */
  lemma KeyIsInjective(b1: string, i1: string, w1: nat, b2: string, i2: string, w2: nat)
    requires OneColon(b1) && OneColon(b2)
    requires Key(b1, i1, w1) == Key(b2, i2, w2)
    ensures b1 == b2 && i1 == i2 && w1 == w2
  {
    var x1, x2 := i1 + ":" + Decimal(w1), i2 + ":" + Decimal(w2);
    var t1, t2 := b1 + ":" + x1, b2 + ":" + x2;
    assert Key(b1, i1, w1) == KEY_PREFIX + t1 && Key(b2, i2, w2) == KEY_PREFIX + t2;
    assert t1 == (KEY_PREFIX + t1)[|KEY_PREFIX|..] && t2 == (KEY_PREFIX + t2)[|KEY_PREFIX|..];
    SplitBucket(b1, x1, b2, x2);
    DecimalHasNoColon(w1);
    DecimalHasNoColon(w2);
    SplitLast(i1, Decimal(w1), i2, Decimal(w2));
    DecimalIsInjective(w1, w2);
  }

  /** A second colon in a bucket would already be enough to confuse two requesters. */
  lemma SecondColonsCollide()
    ensures Key("a:b", "c:d", 0) == Key("a:b:c", "d", 0)
  {
    assert "a:b" + ":" + "c:d" == "a:b:c" + ":" + "d";
  }
}
