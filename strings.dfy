/**
 String helpers used to state properties of the rendered texts: splitting on a
 separator (as Rust's `str::split` with a `char` pattern does), joining back, and
 suffix tests.
 */
module Strings {

  predicate StartsWith(s: string, prefix: string) {
    |prefix| <= |s| && s[..|prefix|] == prefix
  }

  /** A string that starts with `prefix` is that prefix followed by the rest. */
  lemma PrefixThenRest(s: string, prefix: string)
    requires StartsWith(s, prefix)
    ensures s == prefix + s[|prefix|..]
  {
    assert s == s[..|prefix|] + s[|prefix|..];
  }

  predicate EndsWith(s: string, suffix: string) {
    |suffix| <= |s| && forall i :: 0 <= i < |suffix| ==> s[|s| - |suffix| + i] == suffix[i]
  }

  lemma EndsWithAppend(prefix: string, suffix: string)
    ensures EndsWith(prefix + suffix, suffix)
  {
  }

  /** A string does not end in `suffix` when they differ at the `k`-th
      character from the end. */
  lemma NotEndsWithAt(s: string, suffix: string, k: nat)
    requires 0 < k <= |suffix| && k <= |s| && s[|s| - k] != suffix[|suffix| - k]
    ensures !EndsWith(s, suffix)
  {
  }

  /** Two endings that differ at the `k`-th character from the end cannot both
      be endings of one string. */
  lemma EndingsExclusive(s: string, t1: string, t2: string, k: nat)
    requires 0 < k <= |t1| && k <= |t2| && t1[|t1| - k] != t2[|t2| - k]
    ensures !(EndsWith(s, t1) && EndsWith(s, t2))
  {
  }

  /** The pieces of `s` between occurrences of `sep`; an empty string gives one
      empty piece. */
  function Split(s: string, sep: char): (parts: seq<string>)
    ensures |parts| >= 1
    ensures forall i :: 0 <= i < |parts| ==> sep !in parts[i]
    decreases |s|
  {
    if |s| == 0 then [""]
    else
      var rest := Split(s[1..], sep);
      if s[0] == sep then [""] + rest
      else [[s[0]] + rest[0]] + rest[1..]
  }

  /** The pieces laid end to end with `sep` between neighbours. */
  function Join(parts: seq<string>, sep: char): string
    requires |parts| >= 1
    decreases |parts|
  {
    if |parts| == 1 then parts[0]
    else parts[0] + [sep] + Join(parts[1..], sep)
  }

  /** Joining the pieces of a split gives back the original string. */
  lemma {:induction false} JoinSplit(s: string, sep: char)
    ensures Join(Split(s, sep), sep) == s
    decreases |s|
  {
    if |s| > 0 {
      var rest := Split(s[1..], sep);
      JoinSplit(s[1..], sep);
      if s[0] == sep {
        assert Split(s, sep)[1..] == rest;
      } else {
        var parts := Split(s, sep);
        if |rest| == 1 {
          assert parts == [[s[0]] + rest[0]];
        } else {
          assert parts[1..] == rest[1..];
          assert Join(rest, sep) == rest[0] + [sep] + Join(rest[1..], sep);
        }
      }
    }
  }

  /** Splitting a string that holds no separator gives that string alone. */
  lemma {:induction false} SplitNoSeparator(a: string, sep: char)
    requires sep !in a
    ensures Split(a, sep) == [a]
    decreases |a|
  {
    if |a| > 0 {
      SplitNoSeparator(a[1..], sep);
      assert [a[0]] + a[1..] == a;
    }
  }

  /** Splitting at the first separator: the piece before it comes first. */
  lemma {:induction false} SplitAtSeparator(a: string, sep: char, b: string)
    requires sep !in a
    ensures Split(a + [sep] + b, sep) == [a] + Split(b, sep)
    decreases |a|
  {
    if |a| == 0 {
      assert a + [sep] + b == [sep] + b;
      assert (a + [sep] + b)[1..] == b;
    } else {
      var t := a + [sep] + b;
      assert t[0] == a[0];
      assert t[1..] == a[1..] + [sep] + b;
      SplitAtSeparator(a[1..], sep, b);
      assert [a[0]] + a[1..] == a;
    }
  }

  /** A string that splits into three pieces is those pieces joined by the
      separator. */
  lemma JoinThree(s: string, sep: char)
    requires |Split(s, sep)| == 3
    ensures var parts := Split(s, sep); s == parts[0] + [sep] + parts[1] + [sep] + parts[2]
  {
    var parts := Split(s, sep);
    JoinSplit(s, sep);
    assert parts[1..][1..] == [parts[2]];
    assert Join(parts[1..], sep) == parts[1] + [sep] + Join([parts[2]], sep);
  }

  /** Three separator-free pieces joined by `sep` split back into those three. */
  lemma SplitThree(a: string, b: string, c: string, sep: char)
    requires sep !in a && sep !in b && sep !in c
    ensures Split(a + [sep] + b + [sep] + c, sep) == [a, b, c]
  {
    var bc := b + [sep] + c;
    SplitNoSeparator(c, sep);
    SplitAtSeparator(b, sep, c);
    SplitAtSeparator(a, sep, bc);
    RegroupThree(a, b, c, [sep]);
    ThreeElements(a, b, c);
  }

  lemma RegroupThree(a: string, b: string, c: string, s: string)
    ensures a + s + b + s + c == a + s + (b + s + c)
  {
  }

  lemma ThreeElements(a: string, b: string, c: string)
    ensures [a] + ([b] + [c]) == [a, b, c]
  {
  }

  /** A prefix followed by three pieces joined by `sep`: the prefix is there,
      and what follows it splits back into the three pieces. */
  lemma PrefixedThree(p: string, a: string, b: string, c: string, sep: char)
    requires sep !in a && sep !in b && sep !in c
    ensures StartsWith(p + a + [sep] + b + [sep] + c, p)
    ensures Split((p + a + [sep] + b + [sep] + c)[|p|..], sep) == [a, b, c]
  {
    var s := p + a + [sep] + b + [sep] + c;
    assert s[..|p|] == p;
    assert s[|p|..] == a + [sep] + b + [sep] + c;
    SplitThree(a, b, c, sep);
  }

  /** The converse of `PrefixedThree`: a string that starts with `p` and whose
      rest splits into `a`, `b`, `c` is `p` followed by them joined by `sep`. */
  lemma PrefixedThreeInverse(s: string, p: string, a: string, b: string, c: string, sep: char)
    requires StartsWith(s, p) && Split(s[|p|..], sep) == [a, b, c]
    ensures s == p + a + [sep] + b + [sep] + c
  {
    JoinThree(s[|p|..], sep);
    PrefixThenRest(s, p);
    PrependThree(p, a, b, c, [sep]);
  }

  lemma PrependThree(p: string, a: string, b: string, c: string, s: string)
    ensures p + (a + s + b + s + c) == p + a + s + b + s + c
  {
  }
}
