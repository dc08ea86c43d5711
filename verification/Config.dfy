/**
The constants of this configuration of the kernel (rtos/config/FreeRTOSConfig.h), and the
small datatypes every other module shares.
*/
module Config {

  /** TickType_t is an unsigned 32-bit type: tick arithmetic is modulo this number. */
  const TICK_MODULUS: nat := 0x1_0000_0000

  /** portMAX_DELAY, the largest tick value; as a block time it means "for ever". */
  const MAX_DELAY: nat := TICK_MODULUS - 1

  /** configMAX_PRIORITIES; task priorities are 0 (idle) to MAX_PRIORITIES - 1. */
  const MAX_PRIORITIES: nat := 20

  type Tick = t: nat | t < TICK_MODULUS

  type Task = int

  datatype Option<+T> = None | Some(value: T)

  /** The tick value that shows at absolute time t. */
  function Wrap(t: int): Tick {
    t % TICK_MODULUS
  }

  lemma WrapSuccessor(t: Tick)
    ensures Wrap(t + 1) == if t == MAX_DELAY then 0 else t + 1
  {
  }

  /** The number of times the tick count has wrapped to 0 by absolute time t. */
  function Epoch(t: int): int {
    t / TICK_MODULUS
  }

  lemma WrapDefined(t: int)
    ensures t == Epoch(t) * TICK_MODULUS + Wrap(t)
  {
  }

  /** Moving back by whole wraps. */
  lemma WrapShift(t: int, k: int)
    ensures Wrap(t - k * TICK_MODULUS) == Wrap(t) && Epoch(t - k * TICK_MODULUS) == Epoch(t) - k
  {
  }

  lemma WrapSum(a: int, b: int)
    ensures Wrap(Wrap(a) + b) == Wrap(a + b)
  {
    WrapDefined(a);
    WrapShift(a + b, Epoch(a));
  }

  lemma QuotientUnique(a: int, b: int, q: int)
    requires b > 0 && q * b <= a < (q + 1) * b
    ensures a / b == q
  {
    var r := a / b;
    assert r * b <= a < (r + 1) * b by {
      assert a == r * b + a % b;
      assert (r + 1) * b == r * b + b;
    }
    if r < q {
      MulMonotone(r + 1, q, b);
    } else if q < r {
      MulMonotone(q + 1, r, b);
    }
  }

  lemma MulMonotone(a: int, b: int, c: int)
    requires a <= b && c > 0
    ensures a * c <= b * c
  {
    assert (b - a) * c >= 0;
    assert b * c == a * c + (b - a) * c;
  }

  lemma Associates<T>(a: seq<T>, b: seq<T>, c: seq<T>)
    ensures (a + b) + c == a + (b + c)
  {
  }

  lemma NextSuffix<T>(s: seq<T>, i: int)
    requires 0 <= i < |s|
    ensures s[i..][0] == s[i] && s[i..][1..] == s[i + 1..]
  {
  }

  /** No element occurs twice. */
  ghost predicate Distinct<T>(s: seq<T>) {
    s == [] || (s[0] !in s[1..] && Distinct(s[1..]))
  }

  lemma {:induction false} DistinctIndices<T>(s: seq<T>)
    ensures Distinct(s) <==> forall i, j :: 0 <= i < j < |s| ==> s[i] != s[j]
  {
    if s != [] {
      var t := s[1..];
      DistinctIndices(t);
      if Distinct(s) {
        forall i, j | 0 <= i < j < |s|
          ensures s[i] != s[j]
        {
          assert s[j] == t[j - 1];
          assert i > 0 ==> s[i] == t[i - 1];
        }
      } else if s[0] in t {
        var j :| 0 <= j < |t| && t[j] == s[0];
        assert s[0] == s[j + 1];
      } else {
        var i, j :| 0 <= i < j < |t| && t[i] == t[j];
        assert s[i + 1] == s[j + 1];
      }
    }
  }
}
