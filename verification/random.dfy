/**
 * The randomness of the game, made an input. Every value Math.random()
 * returns is supplied as a fraction num/den in [0, 1).
 */
module Random {
  datatype Fraction = Fraction(num: nat, den: nat)

  /** A value Math.random() can return: a fraction in [0, 1). */
  type Unit = f: Fraction | f.num < f.den witness Fraction(0, 1)

  /**
   * Math.floor(Math.random() * n), the index idiom of shuffleArray and
   * getRandomMessage: always an index of an n-element array.
   */
  function RandomIndex(n: nat, u: Unit): (k: nat)
    requires n > 0
    ensures k < n
  {
    ScaledBelow(u.num, u.den, n);
    u.num * n / u.den
  }

  lemma ScaledBelow(a: nat, b: nat, n: nat)
    requires a < b && 0 < n
    ensures a * n / b < n
  {
    var q := a * n / b;
    assert q * b <= a * n;
    assert a * n < b * n;
  }

  /** getRandomMessage: an entry of a message table picked by a random index. */
  function RandomMessage<T>(table: seq<T>, u: Unit): (m: T)
    requires |table| > 0
    ensures m in table
  {
    table[RandomIndex(|table|, u)]
  }
}
