/**
 * The JavaScript string operations the core relies on: `split` and `join` on a
 * one-character separator, `indexOf` (shared with arrays), and the `<=`
 * comparison of two strings.
 */
module JsString {

  /** Number of occurrences of `c` in `s`. */
  function Count(s: string, c: char): (n: nat)
    ensures n == 0 <==> c !in s
    ensures n <= |s|
  {
    if s == [] then 0 else (if s[0] == c then 1 else 0) + Count(s[1..], c)
  }

  /** `s.indexOf(x)` on a string or an array: the first position of `x`, or -1. */
  function IndexOf<T(==)>(s: seq<T>, x: T): (i: int)
    ensures -1 <= i < |s|
    ensures i == -1 <==> x !in s
    ensures 0 <= i ==> s[i] == x && x !in s[..i]
  {
    if s == [] then -1
    else if s[0] == x then 0
    else
      var j := IndexOf(s[1..], x);
      if j == -1 then -1 else j + 1
  }

  /** `s.split(sep)` for a one-character separator: always at least one part. */
  function Split(s: string, sep: char): (parts: seq<string>)
    ensures |parts| == Count(s, sep) + 1
    ensures forall i :: 0 <= i < |parts| ==> sep !in parts[i]
  {
    if s == [] then [""]
    else
      var rest := Split(s[1..], sep);
      if s[0] == sep then [""] + rest
      else [[s[0]] + rest[0]] + rest[1..]
  }

  /** `parts.join(sep)`; the empty list joins to the empty string. */
  function Join(parts: seq<string>, sep: char): string
  {
    if parts == [] then ""
    else if |parts| == 1 then parts[0]
    else parts[0] + [sep] + Join(parts[1..], sep)
  }

  /** A leading character other than the separator belongs to the first part. */
  lemma SplitCons(c: char, t: string, sep: char)
    requires c != sep
    ensures Split([c] + t, sep) == [[c] + Split(t, sep)[0]] + Split(t, sep)[1..]
  {
    assert ([c] + t)[1..] == t;
  }

  /** Joining a part in front of a non-empty list puts a separator after it. */
  lemma JoinCons(part: string, parts: seq<string>, sep: char)
    requires parts != []
    ensures Join([part] + parts, sep) == part + [sep] + Join(parts, sep)
  {
    assert ([part] + parts)[1..] == parts;
  }

  /** Joining the parts of a split with the same separator gives the string back. */
  lemma {:induction false} JoinSplit(s: string, sep: char)
    ensures Join(Split(s, sep), sep) == s
  {
    if s != [] {
      JoinSplit(s[1..], sep);
      if s[0] == sep {
        JoinSplitAtSeparator(s, sep);
      } else {
        JoinSplitAtChar(s, sep);
      }
    }
  }

  /** The step of `JoinSplit` for a leading separator: it starts a new, empty part. */
  lemma JoinSplitAtSeparator(s: string, sep: char)
    requires s != [] && s[0] == sep
    requires Join(Split(s[1..], sep), sep) == s[1..]
    ensures Join(Split(s, sep), sep) == s
  {
    var rest := Split(s[1..], sep);
    assert Split(s, sep) == [""] + rest;
    JoinCons("", rest, sep);
    assert s == [sep] + s[1..];
  }

  /** The step of `JoinSplit` for a leading character: it joins the first part. */
  lemma JoinSplitAtChar(s: string, sep: char)
    requires s != [] && s[0] != sep
    requires Join(Split(s[1..], sep), sep) == s[1..]
    ensures Join(Split(s, sep), sep) == s
  {
    var rest := Split(s[1..], sep);
    SplitCons(s[0], s[1..], sep);
    assert s == [s[0]] + s[1..];
    if |rest| == 1 {
      assert Split(s, sep) == [[s[0]] + rest[0]];
    } else {
      JoinSplitManyParts(s[0], rest[0], rest[1..], sep);
      assert rest == [rest[0]] + rest[1..];
    }
  }

  /** Joining after prefixing the first of several parts with `c` prefixes the joined text with `c`. */
  lemma JoinSplitManyParts(c: char, first: string, tail: seq<string>, sep: char)
    requires tail != []
    ensures Join([[c] + first] + tail, sep) == [c] + Join([first] + tail, sep)
  {
    JoinCons([c] + first, tail, sep);
    JoinCons(first, tail, sep);
    var j := Join(tail, sep);
    assert [c] + first + [sep] + j == [c] + (first + [sep] + j);
  }

  /** A string without the separator splits into itself alone. */
  lemma {:induction false} SplitWithoutSeparator(s: string, sep: char)
    requires sep !in s
    ensures Split(s, sep) == [s]
  {
    if s != [] {
      SplitWithoutSeparator(s[1..], sep);
      assert s == [s[0]] + s[1..];
    }
  }

  /** Splitting at the first separator: the text before it is the first part. */
  lemma {:induction false} SplitAtFirst(a: string, sep: char, b: string)
    requires sep !in a
    ensures Split(a + [sep] + b, sep) == [a] + Split(b, sep)
  {
    if a == [] {
      assert (a + [sep] + b)[1..] == b;
    } else {
      var t := a[1..] + [sep] + b;
      SplitAtFirst(a[1..], sep, b);
      assert a + [sep] + b == [a[0]] + t;
      SplitCons(a[0], t, sep);
      assert ([a[1..]] + Split(b, sep))[1..] == Split(b, sep);
      assert [a[0]] + a[1..] == a;
    }
  }

  /** Every string splits at its first separator, if it has one. */
  lemma SplitFirstPart(s: string, sep: char)
    ensures IndexOf(s, sep) == -1 ==> Split(s, sep) == [s]
    ensures 0 <= IndexOf(s, sep) ==>
      Split(s, sep) == [s[..IndexOf(s, sep)]] + Split(s[IndexOf(s, sep) + 1..], sep)
  {
    var i := IndexOf(s, sep);
    if i == -1 {
      SplitWithoutSeparator(s, sep);
    } else {
      assert s == s[..i] + [sep] + s[i + 1..];
      SplitAtFirst(s[..i], sep, s[i + 1..]);
    }
  }

  /** `a <= b` on JavaScript strings: lexicographic, a prefix comes first. */
  predicate LexLe(a: string, b: string)
  {
    a == [] || (b != [] && (a[0] < b[0] || (a[0] == b[0] && LexLe(a[1..], b[1..]))))
  }

  lemma {:induction false} LexLeTransitive(a: string, b: string, c: string)
    requires LexLe(a, b) && LexLe(b, c)
    ensures LexLe(a, c)
  {
    if a != [] && b != [] && c != [] && a[0] == b[0] == c[0] {
      LexLeTransitive(a[1..], b[1..], c[1..]);
    }
  }
}
