/**
  Go's `strings.Split`, which the tag parser calls, and `strings.Join`, its
  inverse, which the proofs use to state what Split preserves; both for a
  separator that is one (ASCII) character.
  Go strings are byte strings; with a one-byte separator that is not part of
  any multi-byte sequence, splitting on characters and splitting on bytes give
  the same tokens, so strings are plain `seq<char>` here.
*/
module GoStrings {

  /** `strings.Split(s, string(sep))`: the maximal runs of `s` between
      occurrences of `sep`. There is always one more token than there are
      separators, so the empty string yields the single token "". */
  function Split(s: string, sep: char): (r: seq<string>)
    ensures |r| >= 1
    decreases |s|
  {
    if s == [] then [[]]
    else
      var rest := Split(s[1..], sep);
      if s[0] == sep then [[]] + rest
      else [[s[0]] + rest[0]] + rest[1..]
  }

  /** `strings.Join(ts, string(sep))`: the tokens glued together with one
      `sep` between neighbours. */
  function Join(ts: seq<string>, sep: char): string
    decreases |ts|
  {
    if ts == [] then []
    else if |ts| == 1 then ts[0]
    else ts[0] + [sep] + Join(ts[1..], sep)
  }

  /** No token contains the separator. */
  predicate SeparatorFree(ts: seq<string>, sep: char)
  {
    forall i :: 0 <= i < |ts| ==> sep !in ts[i]
  }

  /** Rejoining the tokens with the separator gives back the input exactly. */
  lemma {:induction false} JoinSplit(s: string, sep: char)
    ensures Join(Split(s, sep), sep) == s
    decreases |s|
  {
    if s != [] {
      var rest := Split(s[1..], sep);
      JoinSplit(s[1..], sep);
      if s[0] == sep {
        assert Split(s, sep) == [[]] + rest;
        assert ([[]] + rest)[1..] == rest;
      } else {
        var r := Split(s, sep);
        assert r == [[s[0]] + rest[0]] + rest[1..];
        if |rest| == 1 {
          assert r == [[s[0]] + rest[0]];
        } else {
          assert r[1..] == rest[1..];
          assert Join(rest, sep) == rest[0] + [sep] + Join(rest[1..], sep);
        }
      }
    }
  }

  /** The tokens never contain the separator. */
  lemma {:induction false} SplitSeparatorFree(s: string, sep: char)
    ensures SeparatorFree(Split(s, sep), sep)
    decreases |s|
  {
    if s != [] {
      var rest := Split(s[1..], sep);
      SplitSeparatorFree(s[1..], sep);
      if s[0] != sep {
        var r := Split(s, sep);
        forall i | 0 <= i < |r| ensures sep !in r[i] {
          if i == 0 {
            assert r[0] == [s[0]] + rest[0];
          } else {
            assert r[i] == rest[i];
          }
        }
      } else {
        var r := Split(s, sep);
        forall i | 0 <= i < |r| ensures sep !in r[i] {
          if i > 0 {
            assert r[i] == rest[i - 1];
          }
        }
      }
    }
  }

  /** One token more than there are separators in the input. */
  lemma {:induction false} SplitCount(s: string, sep: char)
    ensures |Split(s, sep)| == multiset(s)[sep] + 1
    decreases |s|
  {
    if s != [] {
      SplitCount(s[1..], sep);
      assert s == [s[0]] + s[1..];
      assert multiset(s) == multiset{s[0]} + multiset(s[1..]);
    }
  }

  /** Splitting a join of separator-free tokens gives back those tokens, so
      Split and Join are inverse to each other. */
  lemma {:induction false} SplitJoin(ts: seq<string>, sep: char)
    requires ts != []
    requires SeparatorFree(ts, sep)
    ensures Split(Join(ts, sep), sep) == ts
    decreases |ts|
  {
    if |ts| == 1 {
      SplitOfFree(ts[0], sep);
    } else {
      SplitJoin(ts[1..], sep);
      assert ts[1..][0] == ts[1];
      SplitCons(ts[0], Join(ts[1..], sep), sep);
      assert [ts[0]] + ts[1..] == ts;
    }
  }

  /** A separator-free string is a single token. */
  lemma {:induction false} SplitOfFree(t: string, sep: char)
    requires sep !in t
    ensures Split(t, sep) == [t]
    decreases |t|
  {
    if t != [] {
      assert sep !in t[1..] by {
        forall c | c in t[1..] ensures c != sep { assert c in t; }
      }
      SplitOfFree(t[1..], sep);
      assert [t[0]] + t[1..] == t;
    }
  }

  /** Splitting `t + [sep] + u` with `t` free of the separator puts `t` in
      front of the tokens of `u`. */
  lemma {:induction false} SplitCons(t: string, u: string, sep: char)
    requires sep !in t
    ensures Split(t + [sep] + u, sep) == [t] + Split(u, sep)
    decreases |t|
  {
    if t == [] {
      assert t + [sep] + u == [sep] + u;
      assert ([sep] + u)[1..] == u;
    } else {
      assert sep !in t[1..] by {
        forall c | c in t[1..] ensures c != sep { assert c in t; }
      }
      SplitCons(t[1..], u, sep);
      var s := t + [sep] + u;
      assert s[0] == t[0];
      assert s[1..] == t[1..] + [sep] + u;
      assert [t[0]] + t[1..] == t;
    }
  }

  /** The first token is the longest separator-free prefix of the input: it
      is followed either by the end of the input or by a separator. */
  lemma {:induction false} SplitFirst(s: string, sep: char)
    ensures var t := Split(s, sep)[0];
      t <= s && sep !in t && (|t| == |s| || s[|t|] == sep)
    decreases |s|
  {
    if s != [] && s[0] != sep {
      SplitFirst(s[1..], sep);
      var rest := Split(s[1..], sep);
      assert Split(s, sep)[0] == [s[0]] + rest[0];
      assert [s[0]] + s[1..] == s;
    }
  }

  /** When the input has a separator, the tokens after the first one are the
      tokens of what follows the first separator. */
  lemma {:induction false} SplitRest(s: string, sep: char)
    requires sep in s
    ensures |Split(s, sep)| >= 2
    ensures var t := Split(s, sep)[0];
      |t| < |s| && Split(s, sep)[1..] == Split(s[|t| + 1..], sep)
    decreases |s|
  {
    var rest := Split(s[1..], sep);
    if s[0] == sep {
      assert Split(s, sep) == [[]] + rest;
    } else {
      assert sep in s[1..] by {
        var k :| 0 <= k < |s| && s[k] == sep;
        assert s[1..][k - 1] == sep;
      }
      SplitRest(s[1..], sep);
      var t := Split(s, sep)[0];
      assert t == [s[0]] + rest[0];
      assert s[1..][|rest[0]| + 1..] == s[|t| + 1..];
    }
  }
}
