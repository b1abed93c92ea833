/**
 * Space-separated token text: Python's `str.split(" ")` and `" ".join`.
 * The controller builds every payload as such text and frames it by
 * splitting it again.
 */
module Tokens {

  /**
   * `s.split(" ")`: cuts at every single space, so adjacent spaces give empty
   * pieces and the empty string gives one empty piece.
   */
  function Split(s: string): (r: seq<string>)
    ensures |r| == Spaces(s) + 1
    decreases |s|
  {
    if |s| == 0 then [""]
    else
      var rest := Split(s[1..]);
      if s[0] == ' ' then [""] + rest
      else [[s[0]] + rest[0]] + rest[1..]
  }

  /** Number of space characters in `s`. */
  function Spaces(s: string): nat
    decreases |s|
  {
    if |s| == 0 then 0 else (if s[0] == ' ' then 1 else 0) + Spaces(s[1..])
  }

  /** `" ".join(ts)`. */
  function Join(ts: seq<string>): string
    decreases |ts|
  {
    if |ts| == 0 then ""
    else if |ts| == 1 then ts[0]
    else ts[0] + " " + Join(ts[1..])
  }

  predicate NoSpaces(ts: seq<string>) {
    forall i | 0 <= i < |ts| :: ' ' !in ts[i]
  }

  /** A piece without spaces splits into itself. */
  lemma {:induction false} SplitNoSpace(t: string)
    requires ' ' !in t
    ensures Split(t) == [t]
    decreases |t|
  {
    if |t| > 0 {
      assert ' ' !in t[1..] by {
        forall i | 0 <= i < |t[1..]| ensures t[1..][i] != ' ' { assert t[1..][i] == t[i + 1]; }
      }
      SplitNoSpace(t[1..]);
      assert [t[0]] + t[1..] == t;
    }
  }

  /** Splitting distributes over a joining space. */
  lemma {:induction false} SplitAppend(a: string, b: string)
    ensures Split(a + " " + b) == Split(a) + Split(b)
    decreases |a|
  {
    var s := a + " " + b;
    if |a| == 0 {
      assert s == [' '] + b;
      SplitCons(' ', b);
      assert Split(a) == [""];
    } else {
      var c := a[0];
      assert a == [c] + a[1..];
      assert s == [c] + (a[1..] + " " + b);
      SplitAppend(a[1..], b);
      SplitCons(c, a[1..] + " " + b);
      SplitCons(c, a[1..]);
      var ra, rb := Split(a[1..]), Split(b);
      if c == ' ' {
        assert [""] + (ra + rb) == ([""] + ra) + rb;
      } else {
        GlueFirst([c], ra, rb);
      }
    }
  }

  /** No piece of a split holds a space. */
  lemma {:induction false} SplitPieces(s: string)
    ensures NoSpaces(Split(s))
    decreases |s|
  {
    if |s| > 0 {
      SplitPieces(s[1..]);
      var rest := Split(s[1..]);
      if s[0] != ' ' {
        assert ' ' !in [s[0]] + rest[0];
      }
    }
  }

  /** How `Split` treats the first character. */
  lemma SplitCons(c: char, t: string)
    ensures c == ' ' ==> Split([c] + t) == [""] + Split(t)
    ensures c != ' ' ==> Split([c] + t) == [[c] + Split(t)[0]] + Split(t)[1..]
  {
    assert ([c] + t)[0] == c && ([c] + t)[1..] == t;
  }

  lemma GlueFirst(x: string, ra: seq<string>, rb: seq<string>)
    requires |ra| > 0
    ensures [x + (ra + rb)[0]] + (ra + rb)[1..] == ([x + ra[0]] + ra[1..]) + rb
  {
    assert (ra + rb)[0] == ra[0];
    assert (ra + rb)[1..] == ra[1..] + rb;
  }

  /** Joining then splitting gives back the pieces, when none holds a space. */
  lemma {:induction false} SplitJoin(ts: seq<string>)
    requires |ts| > 0 && NoSpaces(ts)
    ensures Split(Join(ts)) == ts
    decreases |ts|
  {
    if |ts| == 1 {
      SplitNoSpace(ts[0]);
    } else {
      SplitJoin(ts[1..]);
      SplitNoSpace(ts[0]);
      SplitAppend(ts[0], Join(ts[1..]));
      assert [ts[0]] + ts[1..] == ts;
    }
  }

  /** Splitting then joining gives back the text, for every text. */
  lemma {:induction false} JoinSplit(s: string)
    ensures Join(Split(s)) == s
    decreases |s|
  {
    if |s| > 0 {
      JoinSplit(s[1..]);
      var r := Split(s[1..]);
      assert s == [s[0]] + s[1..];
      if s[0] == ' ' {
        var t := [""] + r;
        assert Split(s) == t;
        assert t[1..] == r;
        assert Join(t) == "" + " " + Join(r);
      } else {
        var t := [[s[0]] + r[0]] + r[1..];
        assert Split(s) == t;
        if |r| == 1 {
          assert Join(t) == [s[0]] + r[0];
        } else {
          assert t[1..] == r[1..];
          assert Join(r) == r[0] + " " + Join(r[1..]);
          assert Join(t) == ([s[0]] + r[0]) + " " + Join(r[1..]);
        }
      }
    }
  }

  /** Joining two non-empty runs of pieces puts one space between them. */
  lemma {:induction false} JoinAppend(a: seq<string>, b: seq<string>)
    requires |a| > 0 && |b| > 0
    ensures Join(a + b) == Join(a) + " " + Join(b)
    decreases |a|
  {
    if |a| == 1 {
      assert (a + b)[1..] == b;
    } else {
      JoinAppend(a[1..], b);
      assert (a + b)[1..] == a[1..] + b;
    }
  }
}
