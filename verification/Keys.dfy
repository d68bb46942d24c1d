/** Colon-separated keys: when the first field of a printed key can be recovered. */
module Keys {

  predicate ColonFree(s: string) { ':' !in s }

  /** The text `long` continues the text `short` past a colon. */
  ghost predicate Extends(short: string, rest: string, long: string, tail: string) {
    exists mid: string {:trigger short + ":" + mid} ::
      long == short + ":" + mid && rest == mid + ":" + tail
  }

  lemma SplitAt(a: string, x: string, b: string, y: string)
    requires a + ":" + x == b + ":" + y
    requires |a| < |b|
    ensures Extends(a, x, b, y)
  {
    var whole := a + ":" + x;
    var mid := b[|a| + 1..];
    assert b == whole[..|b|] && whole[|a|] == ':';
    assert b == a + ":" + mid;
    assert x == whole[|a| + 1..] == mid + ":" + y;
  }

  /**
    Two field/rest pairs print the same text exactly when they are the same pair
    or one first field continues the other past a colon.
   */
  lemma SameTextIff(a: string, x: string, b: string, y: string)
    ensures a + ":" + x == b + ":" + y <==>
            (a == b && x == y) || Extends(a, x, b, y) || Extends(b, y, a, x)
  {
    if a + ":" + x == b + ":" + y {
      if |a| < |b| {
        SplitAt(a, x, b, y);
      } else if |b| < |a| {
        SplitAt(b, y, a, x);
      } else {
        var whole := a + ":" + x;
        assert a == whole[..|a|] && b == whole[..|b|];
        assert x == whole[|a| + 1..] && y == whole[|b| + 1..];
      }
    }
    if Extends(a, x, b, y) {
      var mid: string :| b == a + ":" + mid && x == mid + ":" + y;
      assert a + ":" + x == b + ":" + y;
    }
    if Extends(b, y, a, x) {
      var mid: string :| a == b + ":" + mid && y == mid + ":" + x;
      assert a + ":" + x == b + ":" + y;
    }
  }

  /** A colon-free first field is recovered from the printed text. */
  lemma FirstFieldUnique(a: string, x: string, b: string, y: string)
    requires ColonFree(a) && ColonFree(b)
    requires a + ":" + x == b + ":" + y
    ensures a == b && x == y
  {
    SameTextIff(a, x, b, y);
  }
}
