/**
 The part of Go's `strings` package the handlers rely on: `strings.Split(s, sep)`
 for a one-character separator, its inverse `strings.Join`, and `strings.Count`.
 The handlers split the `rgb` query and the webhook `action` on ',' and the
 device reads a command string as fields separated by '/'.
 */
module GoStrings {

  /** Number of occurrences of `c` in `s` (`strings.Count` for a one-character needle). */
  function Occurrences(s: string, c: char): (n: nat)
    ensures n == 0 <==> c !in s
  {
    if s == [] then 0
    else (if s[0] == c then 1 else 0) + Occurrences(s[1..], c)
  }

  /**
   `strings.Split(s, sep)` for a one-character `sep`: the maximal runs of `s`
   between separators, in order. There is always at least one part, and the
   empty string splits to the single empty part.
   */
  function Split(s: string, sep: char): (parts: seq<string>)
    ensures |parts| >= 1
  {
    if s == [] then [""]
    else
      var rest := Split(s[1..], sep);
      if s[0] == sep then [""] + rest
      else [[s[0]] + rest[0]] + rest[1..]
  }

  /** `strings.Join(parts, sep)` for a one-character `sep`. */
  function Join(parts: seq<string>, sep: char): (s: string)
    requires |parts| >= 1
  {
    if |parts| == 1 then parts[0]
    else parts[0] + [sep] + Join(parts[1..], sep)
  }

  /** Joining four parts, written out. */
  lemma JoinFour(a: string, b: string, c: string, d: string, sep: char)
    ensures Join([a, b, c, d], sep) == a + [sep] + b + [sep] + c + [sep] + d
  {
    assert [c, d][1..] == [d];
    assert Join([c, d], sep) == c + [sep] + d;
    assert [b, c, d][1..] == [c, d];
    assert Join([b, c, d], sep) == b + [sep] + (c + [sep] + d);
    assert [a, b, c, d][1..] == [b, c, d];
    assert Join([a, b, c, d], sep) == a + [sep] + (b + [sep] + (c + [sep] + d));
  }

  /** No part contains the separator. */
  predicate NoSeparator(parts: seq<string>, sep: char)
  {
    forall i :: 0 <= i < |parts| ==> sep !in parts[i]
  }

  /** A string with k separators splits into exactly k + 1 parts. */
  lemma {:induction false} SplitLength(s: string, sep: char)
    ensures |Split(s, sep)| == Occurrences(s, sep) + 1
  {
    if s != [] {
      SplitLength(s[1..], sep);
    }
  }

  /** The parts never contain the separator. */
  lemma {:induction false} SplitPartsHaveNoSeparator(s: string, sep: char)
    ensures NoSeparator(Split(s, sep), sep)
  {
    if s != [] {
      SplitPartsHaveNoSeparator(s[1..], sep);
      var rest := Split(s[1..], sep);
      if s[0] != sep {
        assert sep !in [s[0]] + rest[0] by {
          assert sep !in rest[0];
        }
      }
    }
  }

  /** Joining the parts with the separator gives back the original string. */
  lemma {:induction false} JoinSplit(s: string, sep: char)
    ensures Join(Split(s, sep), sep) == s
  {
    if s != [] {
      JoinSplit(s[1..], sep);
      var rest := Split(s[1..], sep);
      if s[0] == sep {
        assert ([""] + rest)[1..] == rest;
      } else {
        var parts := [[s[0]] + rest[0]] + rest[1..];
        if |rest| > 1 {
          assert parts[1..] == rest[1..];
          assert Join(rest, sep) == rest[0] + [sep] + Join(rest[1..], sep);
        }
      }
    }
  }

  /** Every occurrence of `a` in `s` replaced by `b` (`strings.ReplaceAll` for one-character strings). */
  function ReplaceAll(s: string, a: char, b: char): (r: string)
    ensures |r| == |s|
    ensures forall i :: 0 <= i < |s| ==> r[i] == if s[i] == a then b else s[i]
  {
    if s == [] then []
    else [if s[0] == a then b else s[0]] + ReplaceAll(s[1..], a, b)
  }

  /** Splitting on `a` and joining with `b` replaces each `a` by `b`. */
  lemma {:induction false} JoinSplitReplaces(s: string, a: char, b: char)
    ensures Join(Split(s, a), b) == ReplaceAll(s, a, b)
  {
    if s != [] {
      JoinSplitReplaces(s[1..], a, b);
      var rest := Split(s[1..], a);
      if s[0] == a {
        assert ([""] + rest)[1..] == rest;
      } else {
        var parts := [[s[0]] + rest[0]] + rest[1..];
        if |rest| > 1 {
          assert parts[1..] == rest[1..];
          assert Join(rest, b) == rest[0] + [b] + Join(rest[1..], b);
        }
      }
    }
  }

  /** A separator-free string is a single part. */
  lemma {:induction false} SplitWithoutSeparator(p: string, sep: char)
    requires sep !in p
    ensures Split(p, sep) == [p]
  {
    if p != [] {
      assert sep !in p[1..] by {
        forall i | 0 <= i < |p[1..]| ensures p[1..][i] != sep {
          assert p[1..][i] == p[i + 1];
        }
      }
      SplitWithoutSeparator(p[1..], sep);
      assert [p[0]] + p[1..] == p;
    }
  }

  /** A separator-free prefix ended by a separator becomes the first part. */
  lemma {:induction false} SplitAfterPrefix(p: string, t: string, sep: char)
    requires sep !in p
    ensures Split(p + [sep] + t, sep) == [p] + Split(t, sep)
  {
    if p == [] {
      assert (p + [sep] + t)[1..] == t;
    } else {
      assert (p + [sep] + t)[1..] == p[1..] + [sep] + t;
      SplitAfterPrefix(p[1..], t, sep);
      assert [p[0]] + p[1..] == p;
    }
  }

  /** Splitting a join of separator-free parts gives the parts back. */
  lemma {:induction false} SplitJoin(parts: seq<string>, sep: char)
    requires |parts| >= 1
    requires NoSeparator(parts, sep)
    ensures Split(Join(parts, sep), sep) == parts
  {
    if |parts| == 1 {
      SplitWithoutSeparator(parts[0], sep);
    } else {
      assert sep !in parts[0];
      SplitJoin(parts[1..], sep);
      SplitAfterPrefix(parts[0], Join(parts[1..], sep), sep);
    }
  }

  /** Go's documented edge case: the empty string splits to one empty part. */
  lemma EmptySplitsToOnePart(sep: char)
    ensures Split("", sep) == [""]
  {
  }

  /** The well-formed `rgb` query of the direct endpoint. */
  lemma SplitRgbQuery()
    ensures Split("10,20,30", ',') == ["10", "20", "30"]
  {
    var parts := ["10", "20", "30"];
    assert Join(parts, ',') == "10,20,30";
    SplitJoin(parts, ',');
  }
}
