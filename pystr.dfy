/**
 * The Python string and list built-ins that the game transformation relies on,
 * written out over `seq<char>`: `str.split(" ", maxsplit)`, `" ".join(pieces)`
 * and the stepped slice `xs[start:stop:2]`; and `Count`, the number of
 * occurrences of a character, in whose terms the game's length is stated.
 */
module PyStr {

  /** Python's default `maxsplit` of -1: any negative value means "no limit". */
  const NoLimit: int := -1

  function Min(a: int, b: int): (m: int)
  {
    if a <= b then a else b
  }

  /**
   * The number of occurrences of `c` in `s`. The exporter never counts
   * characters; this states what `len(moves.split(" "))` computes.
   */
  function Count(s: string, c: char): (k: nat)
    ensures k <= |s|
    ensures k == 0 <==> c !in s
  {
    if s == [] then 0
    else (if s[0] == c then 1 else 0) + Count(s[1..], c)
  }

  /** Extends the first piece of a split with one more leading character. */
  function Cons(c: char, pieces: seq<string>): (r: seq<string>)
    requires |pieces| >= 1
    ensures |r| == |pieces| && r[0] == [c] + pieces[0] && r[1..] == pieces[1..]
  {
    [[c] + pieces[0]] + pieces[1..]
  }

  /**
   * `s.split(" ", maxsplit)`: cuts `s` at its first `maxsplit` occurrences of the
   * single character ' ' (every occurrence when `maxsplit` is negative). Empty
   * pieces are kept, and the last piece is the unsplit remainder.
   */
  function SplitOn(s: string, maxsplit: int): (pieces: seq<string>)
    ensures 1 <= |pieces|
    ensures maxsplit >= 0 ==> |pieces| <= maxsplit + 1
    decreases |s|
  {
    if s == [] then [""]
    else if maxsplit == 0 then [s]
    else if s[0] == ' ' then [""] + SplitOn(s[1..], if maxsplit > 0 then maxsplit - 1 else maxsplit)
    else Cons(s[0], SplitOn(s[1..], maxsplit))
  }

  /**
   * `" ".join(pieces)`: empty for no pieces, and otherwise starting with the
   * first piece.
   */
  function Join(pieces: seq<string>): (s: string)
    ensures |pieces| == 0 ==> s == ""
    ensures |pieces| >= 1 ==> pieces[0] <= s
  {
    if |pieces| == 0 then ""
    else if |pieces| == 1 then pieces[0]
    else pieces[0] + " " + Join(pieces[1..])
  }

  /**
   * `xs[start:stop:2]` for non-negative bounds: the elements at indices start,
   * start + 2, ... that lie below both `stop` and `|xs|`, in order, and no other.
   */
  function StepSlice<T>(xs: seq<T>, start: nat, stop: nat): (r: seq<T>)
    ensures forall k :: 0 <= k < |r| ==>
              start + 2 * k < stop && start + 2 * k < |xs| && r[k] == xs[start + 2 * k]
    ensures start + 2 * |r| >= Min(stop, |xs|)
    decreases |xs| - start
  {
    if start >= stop || start >= |xs| then []
    else [xs[start]] + StepSlice(xs, start + 2, stop)
  }

  // Not inductive: the attribute stops Dafny from trying an automatic
  // induction on `pieces`, which runs out of resource on some solver seeds.
  lemma {:induction false} JoinCons(c: char, pieces: seq<string>)
    requires |pieces| >= 1
    ensures Join(Cons(c, pieces)) == [c] + Join(pieces)
  {
  }

  /** Joining the pieces of a split with ' ' gives back the string that was split. */
  lemma {:induction false} JoinSplit(s: string, maxsplit: int)
    ensures Join(SplitOn(s, maxsplit)) == s
    decreases |s|
  {
    if s == [] || maxsplit == 0 {
    } else if s[0] == ' ' {
      var m := if maxsplit > 0 then maxsplit - 1 else maxsplit;
      var rest := SplitOn(s[1..], m);
      JoinSplit(s[1..], m);
      assert ([""] + rest)[1..] == rest;
      calc {
        Join(SplitOn(s, maxsplit));
        Join([""] + rest);
        "" + " " + Join(rest);
        " " + s[1..];
        s;
      }
    } else {
      JoinSplit(s[1..], maxsplit);
      JoinCons(s[0], SplitOn(s[1..], maxsplit));
      assert [s[0]] + s[1..] == s;
    }
  }

  /**
   * A split performs one cut per ' ' until `maxsplit` cuts are made, so it has
   * `min(count, maxsplit) + 1` pieces, or `count + 1` pieces without a limit.
   */
  lemma {:induction false} SplitLength(s: string, maxsplit: int)
    ensures maxsplit < 0 ==> |SplitOn(s, maxsplit)| == Count(s, ' ') + 1
    ensures maxsplit >= 0 ==> |SplitOn(s, maxsplit)| == Min(Count(s, ' '), maxsplit) + 1
    decreases |s|
  {
    if s == [] || maxsplit == 0 {
    } else if s[0] == ' ' {
      SplitLength(s[1..], if maxsplit > 0 then maxsplit - 1 else maxsplit);
    } else {
      SplitLength(s[1..], maxsplit);
    }
  }

  /**
   * No piece but the last contains ' '; the last does not either when the
   * split has no limit or stopped before using up its `maxsplit` cuts.
   */
  lemma {:induction false} SplitPiecesHaveNoSpace(s: string, maxsplit: int)
    ensures var p := SplitOn(s, maxsplit);
      (forall i :: 0 <= i < |p| - 1 ==> ' ' !in p[i]) &&
      ((maxsplit < 0 || |p| <= maxsplit) ==> ' ' !in p[|p| - 1])
    decreases |s|
  {
    if s == [] || maxsplit == 0 {
    } else if s[0] == ' ' {
      var m := if maxsplit > 0 then maxsplit - 1 else maxsplit;
      SplitPiecesHaveNoSpace(s[1..], m);
      var q := SplitOn(s[1..], m);
      assert SplitOn(s, maxsplit) == [""] + q;
    } else {
      SplitPiecesHaveNoSpace(s[1..], maxsplit);
      var q := SplitOn(s[1..], maxsplit);
      var p := SplitOn(s, maxsplit);
      assert p == Cons(s[0], q);
      forall i | 0 <= i < |p| ensures (i < |p| - 1 || maxsplit < 0 || |p| <= maxsplit) ==> ' ' !in p[i] {
        if i == 0 {
          assert p[0] == [s[0]] + q[0];
        } else {
          assert p[i] == q[i];
        }
      }
    }
  }

  /**
   * A split with a limit agrees with the unlimited split on every piece before
   * its remainder, and is the unlimited split when the limit was not reached.
   */
  lemma {:induction false} SplitPrefix(s: string, maxsplit: int)
    requires maxsplit >= 0
    ensures |SplitOn(s, maxsplit)| <= |SplitOn(s, NoLimit)|
    ensures forall i :: 0 <= i < |SplitOn(s, maxsplit)| - 1 ==>
              SplitOn(s, maxsplit)[i] == SplitOn(s, NoLimit)[i]
    ensures |SplitOn(s, maxsplit)| <= maxsplit ==> SplitOn(s, maxsplit) == SplitOn(s, NoLimit)
    decreases |s|
  {
    if s == [] || maxsplit == 0 {
      SplitLength(s, NoLimit);
    } else if s[0] == ' ' {
      SplitPrefix(s[1..], maxsplit - 1);
      assert SplitOn(s, maxsplit) == [""] + SplitOn(s[1..], maxsplit - 1);
      assert SplitOn(s, NoLimit) == [""] + SplitOn(s[1..], NoLimit);
    } else {
      SplitPrefix(s[1..], maxsplit);
      var q, q' := SplitOn(s[1..], maxsplit), SplitOn(s[1..], NoLimit);
      assert SplitOn(s, maxsplit) == Cons(s[0], q);
      assert SplitOn(s, NoLimit) == Cons(s[0], q');
    }
  }

  /** A string without ' ' splits into itself alone, whatever the limit. */
  lemma {:induction false} SplitWhole(a: string, maxsplit: int)
    requires ' ' !in a
    ensures SplitOn(a, maxsplit) == [a]
    decreases |a|
  {
    if a != [] && maxsplit != 0 {
      SplitWhole(a[1..], maxsplit);
      assert [a[0]] + a[1..] == a;
    }
  }

  /**
   * Splitting `a + " " + rest`, where `a` has no ' ' and a cut is still
   * allowed, cuts off exactly `a` and uses up one cut.
   */
  lemma {:induction false} SplitSeparated(a: string, rest: string, maxsplit: int)
    requires ' ' !in a
    requires maxsplit != 0
    ensures SplitOn(a + " " + rest, maxsplit) ==
            [a] + SplitOn(rest, if maxsplit > 0 then maxsplit - 1 else maxsplit)
    decreases |a|
  {
    var s := a + " " + rest;
    if a == [] {
      assert s[1..] == rest;
    } else {
      SplitSeparated(a[1..], rest, maxsplit);
      assert s[1..] == a[1..] + " " + rest;
      assert [a[0]] + a[1..] == a;
    }
  }

  /**
   * Below its limit a split's pieces are the unlimited split's pieces, and
   * none of them holds a ' '.
   */
  lemma {:induction false} LimitedSplitWindow(s: string, maxsplit: int)
    requires maxsplit >= 0
    ensures var limited, all := SplitOn(s, maxsplit), SplitOn(s, NoLimit);
      && Min(maxsplit, |limited|) == Min(maxsplit, |all|)
      && (forall i :: 0 <= i < Min(maxsplit, |limited|) ==> limited[i] == all[i] && ' ' !in limited[i])
  {
    var limited, all := SplitOn(s, maxsplit), SplitOn(s, NoLimit);
    SplitPrefix(s, maxsplit);
    SplitLength(s, maxsplit);
    SplitLength(s, NoLimit);
    SplitPiecesHaveNoSpace(s, maxsplit);
    SplitPiecesHaveNoSpace(s, NoLimit);
    if |limited| <= maxsplit {
      assert limited == all;
    } else {
      assert |limited| == maxsplit + 1;
    }
  }

  /** Splitting the join of pieces that hold no ' ' gives back those pieces. */
  lemma {:induction false} SplitJoin(pieces: seq<string>)
    requires |pieces| >= 1
    requires forall i :: 0 <= i < |pieces| ==> ' ' !in pieces[i]
    ensures SplitOn(Join(pieces), NoLimit) == pieces
    decreases |pieces|
  {
    if |pieces| == 1 {
      SplitWhole(pieces[0], NoLimit);
    } else {
      SplitJoin(pieces[1..]);
      SplitSeparated(pieces[0], Join(pieces[1..]), NoLimit);
      assert [pieces[0]] + pieces[1..] == pieces;
    }
  }

  /**
   * Splitting the join of pieces that hold no ' ' with a limit of `maxsplit`
   * cuts gives the first `maxsplit` pieces and then the rest joined again.
   */
  lemma {:induction false} SplitJoinLimited(pieces: seq<string>, maxsplit: nat)
    requires |pieces| >= 1
    requires forall i :: 0 <= i < |pieces| ==> ' ' !in pieces[i]
    ensures SplitOn(Join(pieces), maxsplit) ==
            if maxsplit < |pieces| then pieces[..maxsplit] + [Join(pieces[maxsplit..])] else pieces
    decreases |pieces|
  {
    if maxsplit == 0 {
      assert pieces[0..] == pieces;
    } else if |pieces| == 1 {
      SplitWhole(pieces[0], maxsplit);
    } else {
      var tail := pieces[1..];
      SplitJoinLimited(tail, maxsplit - 1);
      SplitSeparated(pieces[0], Join(tail), maxsplit);
      if maxsplit < |pieces| {
        assert [pieces[0]] + tail[..maxsplit - 1] == pieces[..maxsplit];
        assert tail[maxsplit - 1..] == pieces[maxsplit..];
      } else {
        assert [pieces[0]] + tail == pieces;
      }
    }
  }

  /** Stepped slices of two lists that agree below the slice's bound are equal. */
  lemma {:induction false} StepSliceAgree<T>(xs: seq<T>, ys: seq<T>, start: nat, stop: nat)
    requires Min(stop, |xs|) == Min(stop, |ys|)
    requires forall i :: 0 <= i < Min(stop, |xs|) ==> xs[i] == ys[i]
    ensures StepSlice(xs, start, stop) == StepSlice(ys, start, stop)
  {
  }
}
