/** The part of java.lang.String the clipboard parsers use: split(" ") and startsWith. */
module Text {

  const Space: char := ' '

  /**
   * Every piece of s between occurrences of the separator, empty pieces
   * included: n separators give n + 1 pieces.
   */
  function Pieces(s: string, sep: char): (r: seq<string>)
    ensures |r| >= 1
    ensures forall k :: 0 <= k < |r| ==> sep !in r[k]
    decreases |s|
  {
    if |s| == 0 then [""]
    else
      var rest := Pieces(s[1..], sep);
      if s[0] == sep then [""] + rest
      else [[s[0]] + rest[0]] + rest[1..]
  }

  /** Removes the empty strings at the end of a list of pieces. */
  function DropTrailingEmpty(ps: seq<string>): (r: seq<string>)
    ensures r <= ps
    ensures r == [] || r[|r| - 1] != ""
    ensures forall k :: |r| <= k < |ps| ==> ps[k] == ""
    decreases |ps|
  {
    if |ps| > 0 && ps[|ps| - 1] == "" then DropTrailingEmpty(ps[..|ps| - 1]) else ps
  }

  /**
   * String.split with a one-character pattern and limit 0: a string that does
   * not contain the separator is returned whole (so "" gives [""]); otherwise
   * the pieces, with trailing empty strings removed.
   */
  function Split(s: string, sep: char): seq<string> {
    if sep !in s then [s] else DropTrailingEmpty(Pieces(s, sep))
  }

  /** The tokens glued back together with the separator in between. */
  function Join(ts: seq<string>, sep: char): string
    decreases |ts|
  {
    if |ts| == 0 then ""
    else if |ts| == 1 then ts[0]
    else ts[0] + [sep] + Join(ts[1..], sep)
  }

  /** Joining two non-empty lists is joining each and gluing with one separator. */
  lemma {:induction false} JoinAppend(a: seq<string>, b: seq<string>, sep: char)
    requires |a| >= 1 && |b| >= 1
    ensures Join(a + b, sep) == Join(a, sep) + [sep] + Join(b, sep)
    decreases |a|
  {
    if |a| > 1 {
      assert (a + b)[1..] == a[1..] + b;
      JoinAppend(a[1..], b, sep);
    } else {
      assert (a + b)[1..] == b;
    }
  }

  /** How many times c occurs in s. */
  function Count(s: string, c: char): nat
    decreases |s|
  {
    if |s| == 0 then 0 else (if s[0] == c then 1 else 0) + Count(s[1..], c)
  }

  ghost predicate NoSeparator(ts: seq<string>, sep: char) {
    forall k :: 0 <= k < |ts| ==> sep !in ts[k]
  }

  /** Splitting undoes joining: the pieces of a join are the tokens joined. */
  lemma {:induction false} PiecesOfJoin(ts: seq<string>, sep: char)
    requires |ts| >= 1 && NoSeparator(ts, sep)
    ensures Pieces(Join(ts, sep), sep) == ts
    decreases |ts|, |ts[0]|
  {
    if |ts| == 1 {
      PiecesOfPlain(ts[0], sep);
    } else if |ts[0]| == 0 {
      var s := Join(ts, sep);
      assert s == [sep] + Join(ts[1..], sep);
      assert s[1..] == Join(ts[1..], sep);
      PiecesOfJoin(ts[1..], sep);
      assert [""] + ts[1..] == ts;
    } else {
      var s := Join(ts, sep);
      var head := ts[0];
      var ts' := [head[1..]] + ts[1..];
      assert NoSeparator(ts', sep) by {
        forall k | 0 <= k < |ts'| ensures sep !in ts'[k] {
          if k == 0 {
            assert forall c :: c in head[1..] ==> c in head;
          } else {
            assert ts'[k] == ts[k];
          }
        }
      }
      assert Join(ts', sep) == head[1..] + [sep] + Join(ts[1..], sep);
      assert s == [head[0]] + Join(ts', sep);
      assert s[1..] == Join(ts', sep);
      assert s[0] == head[0] && head[0] != sep;
      PiecesOfJoin(ts', sep);
      assert [head[0]] + head[1..] == head;
      assert ts'[1..] == ts[1..];
      assert [head] + ts[1..] == ts;
    }
  }

  /** A string without the separator is its own only piece. */
  lemma {:induction false} PiecesOfPlain(s: string, sep: char)
    requires sep !in s
    ensures Pieces(s, sep) == [s]
    decreases |s|
  {
    if |s| > 0 {
      assert sep !in s[1..] by {
        assert forall c :: c in s[1..] ==> c in s;
      }
      PiecesOfPlain(s[1..], sep);
      assert [s[0]] + s[1..] == s;
    }
  }

  /** The join of at least two tokens contains the separator. */
  lemma JoinHasSeparator(ts: seq<string>, sep: char)
    requires |ts| >= 2
    ensures sep in Join(ts, sep)
  {
    var s := Join(ts, sep);
    assert s[|ts[0]|] == sep;
  }

  /** Split undoes Join for two or more separator-free tokens, the last one non-empty. */
  lemma SplitOfJoin(ts: seq<string>, sep: char)
    requires |ts| >= 2 && NoSeparator(ts, sep) && ts[|ts| - 1] != ""
    ensures Split(Join(ts, sep), sep) == ts
  {
    JoinHasSeparator(ts, sep);
    PiecesOfJoin(ts, sep);
  }

  lemma {:induction false} CountConcat(a: string, b: string, c: char)
    ensures Count(a + b, c) == Count(a, c) + Count(b, c)
    decreases |a|
  {
    if |a| > 0 {
      assert (a + b)[0] == a[0];
      assert (a + b)[1..] == a[1..] + b;
      CountConcat(a[1..], b, c);
    } else {
      assert a + b == b;
    }
  }

  /** A prefix holds no more occurrences than the whole string. */
  lemma CountOfPrefix(p: string, s: string, c: char)
    requires p <= s
    ensures Count(p, c) <= Count(s, c)
  {
    assert s == p + s[|p|..];
    CountConcat(p, s[|p|..], c);
  }

  lemma {:induction false} CountAbsent(s: string, c: char)
    requires c !in s
    ensures Count(s, c) == 0
    decreases |s|
  {
    if |s| > 0 {
      assert c !in s[1..] by {
        assert forall d :: d in s[1..] ==> d in s;
      }
      CountAbsent(s[1..], c);
    }
  }

  /** Joining n separator-free tokens puts exactly n - 1 separators in the result. */
  lemma {:induction false} CountOfJoin(ts: seq<string>, sep: char)
    requires |ts| >= 1 && NoSeparator(ts, sep)
    ensures Count(Join(ts, sep), sep) == |ts| - 1
    decreases |ts|
  {
    CountAbsent(ts[0], sep);
    if |ts| > 1 {
      assert NoSeparator(ts[1..], sep) by {
        forall k | 0 <= k < |ts| - 1 ensures sep !in ts[1..][k] {
          assert ts[1..][k] == ts[k + 1];
        }
      }
      CountOfJoin(ts[1..], sep);
      CountConcat(ts[0], [sep], sep);
      CountConcat(ts[0] + [sep], Join(ts[1..], sep), sep);
    }
  }
}
