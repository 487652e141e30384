/**
 * Values shared by the whole model: genes as the library stores them,
 * the exceptions it throws, Java's integer arithmetic, and the
 * Fisher-Yates shuffle used both by permutation-mode initialisation and
 * by Collections.shuffle.
 */
module Common {

  /** A gene as a chromosome stores it: a boxed Integer, a boxed Character
    * (kept as its UTF-16 code unit), or null for a gene that is not set. */
  datatype Gene = Null | Int(value: int) | Chr(code: int)

  /** The exceptions the library throws, with the message where it gives
    * one. `NoReturn` is not a Java exception: it stands for a call that
    * the Java code never returns from, because a rejection loop can find
    * no value to stop at, and ends the model's run as a throw would. */
  datatype Exception =
    | IllegalArgument(message: string)
    | IllegalState(message: string)
    | NullPointer(message: string)
    | Arithmetic
    | IndexOutOfBounds
    | ClassCast
    | NoReturn

  /** The message of the exception `Random.nextInt` throws for a bound below 1. */
  const BoundMessage := "bound must be positive"

  datatype Outcome<+T> = Ok(value: T) | Thrown(exception: Exception)

  datatype Option<+T> = None | Some(value: T)

  /** Java's `/` on int: the quotient is truncated toward zero. */
  function JavaDiv(a: int, b: int): int
    requires b != 0
  {
    if (a >= 0) == (b > 0) then Abs(a) / Abs(b) else -(Abs(a) / Abs(b))
  }

  /** Java's `%` on int: the remainder takes the sign of the dividend. */
  function JavaRem(a: int, b: int): (r: int)
    requires b != 0
    ensures a == JavaDiv(a, b) * b + r
    ensures Abs(r) < Abs(b)
    ensures a >= 0 ==> r >= 0
  {
    a - JavaDiv(a, b) * b
  }

  function Abs(x: int): nat { if x < 0 then -x else x }

  /** Java's `(int)` cast of a double: truncation toward zero. */
  function TruncateToInt(x: real): int
  {
    if x >= 0.0 then x.Floor else -((-x).Floor)
  }

  /** The genes 0, 1, ..., n-1 in order: the identity permutation. */
  function Identity(n: nat): seq<Gene>
  {
    seq(n, i => Int(i))
  }

  predicate Distinct(s: seq<Gene>)
  {
    forall i, j :: 0 <= i < j < |s| ==> s[i] != s[j]
  }

  /** The genes `s` holds, each once. */
  function Values(s: seq<Gene>): set<Gene>
  {
    set x | x in s
  }

  /** A sequence holds at most as many different genes as it has entries,
    * and exactly as many when its entries are distinct. */
  lemma {:induction false} ValuesBound(s: seq<Gene>)
    ensures |Values(s)| <= |s|
    ensures Distinct(s) ==> |Values(s)| == |s|
  {
    if s != [] {
      var n := |s| - 1;
      ValuesBound(s[..n]);
      assert Values(s) == Values(s[..n]) + {s[n]};
      if Distinct(s) {
        assert Distinct(s[..n]);
        assert s[n] !in Values(s[..n]);
      }
    }
  }

  /** A subset is at most as large as its superset, and one as large is
    * the whole superset. */
  lemma SubsetSize<T>(a: set<T>, b: set<T>)
    requires a <= b
    ensures |a| <= |b|
    ensures |a| >= |b| ==> a == b
  {
    assert b == a + (b - a);
  }

  /** `s` with the entries at `i` and `j` exchanged (Collections.swap). */
  function Swap(s: seq<Gene>, i: int, j: int): (t: seq<Gene>)
    requires 0 <= i < |s| && 0 <= j < |s|
    ensures |t| == |s|
  {
    s[i := s[j]][j := s[i]]
  }

  lemma SwapPermutes(s: seq<Gene>, i: int, j: int)
    requires 0 <= i < |s| && 0 <= j < |s|
    ensures multiset(Swap(s, i, j)) == multiset(s)
  {
  }

  /** The draws a Fisher-Yates shuffle of `n` entries consumes: for
    * i = n-1 down to 1 one value in [0, i], in that order. */
  predicate ShuffleDraws(n: nat, draws: seq<int>)
  {
    && |draws| == (if n <= 1 then 0 else n - 1)
    && forall k :: 0 <= k < |draws| ==> 0 <= draws[k] <= n - 1 - k
  }

  /** Fisher-Yates: exchange the last entry with the drawn one, then
    * shuffle the entries before it. */
  function Shuffle(s: seq<Gene>, draws: seq<int>): (t: seq<Gene>)
    requires ShuffleDraws(|s|, draws)
    ensures |t| == |s|
    decreases |s|
  {
    if |s| <= 1 then s
    else
      var i := |s| - 1;
      var swapped := Swap(s, i, draws[0]);
      Shuffle(swapped[..i], draws[1..]) + [swapped[i]]
  }

  /** A shuffle only reorders: it is a permutation of its input. */
  lemma {:induction false} ShufflePermutes(s: seq<Gene>, draws: seq<int>)
    requires ShuffleDraws(|s|, draws)
    ensures multiset(Shuffle(s, draws)) == multiset(s)
    decreases |s|
  {
    if |s| > 1 {
      var i := |s| - 1;
      var swapped := Swap(s, i, draws[0]);
      SwapPermutes(s, i, draws[0]);
      ShufflePermutes(swapped[..i], draws[1..]);
      assert swapped == swapped[..i] + [swapped[i]];
    }
  }

  /** The position of the first draw that differs from `x`: where a
    * rejection loop `while (drawn == x) drawn = next()` stops. */
  function FirstDifferent(draws: seq<int>, x: int): (k: nat)
    requires exists k :: 0 <= k < |draws| && draws[k] != x
    ensures k < |draws| && draws[k] != x
    ensures forall m :: 0 <= m < k ==> draws[m] == x
  {
    if draws[0] != x then 0
    else
      assert exists k :: 0 <= k < |draws[1..]| && draws[1..][k] != x by {
        var k :| 0 <= k < |draws| && draws[k] != x;
        assert draws[1..][k - 1] == draws[k];
      }
      1 + FirstDifferent(draws[1..], x)
  }

  /** The draws of a second index: each in [0, length), redrawn while it
    * equals `first`, so one of them must differ from it. */
  predicate RedrawDraws(length: int, first: int, redraws: seq<int>)
  {
    && 0 <= first < length
    && (forall k :: 0 <= k < |redraws| ==> 0 <= redraws[k] < length)
    && exists k :: 0 <= k < |redraws| && redraws[k] != first
  }

  /** The index the redraw loop settles on. */
  function Redrawn(length: int, first: int, redraws: seq<int>): (second: int)
    requires RedrawDraws(length, first, redraws)
    ensures 0 <= second < length && second != first
  {
    redraws[FirstDifferent(redraws, first)]
  }

  /** A redraw loop that stops on an index different from the first one
    * can only stop when there are at least two positions. */
  lemma RedrawNeedsTwoPositions(length: int, first: int, redraws: seq<int>)
    requires RedrawDraws(length, first, redraws)
    ensures length >= 2
  {
    var k :| 0 <= k < |redraws| && redraws[k] != first;
  }
}
