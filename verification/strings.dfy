/** Go's `strings.Split` and `strings.Join` for a one-character separator,
    which is how `convertToType` splits a slice value and how `GetQueryParam`
    joins the values of a repeated query key. */
module Strings {
  import opened Wrappers

  /** Number of occurrences of `c` in `s`. */
  function Count(s: string, c: char): nat
  {
    if |s| == 0 then 0
    else (if s[0] == c then 1 else 0) + Count(s[1..], c)
  }

  /** Position of the first occurrence of `c` in `s`, if any (Go's `strings.IndexByte`). */
  function IndexOf(s: string, c: char): (r: Option<nat>)
    ensures r.Some? ==> r.value < |s| && s[r.value] == c && c !in s[..r.value]
    ensures r.None? <==> c !in s
  {
    if |s| == 0 then None
    else if s[0] == c then Some(0)
    else
      match IndexOf(s[1..], c)
      case None => None
      case Some(i) =>
        assert s[1..][..i] == s[1..i + 1];
        Some(i + 1)
  }

  /** The pieces joined back with the separator between neighbours; no
      separator for zero or one piece. */
  function Join(parts: seq<string>, sep: char): (s: string)
    ensures |parts| > 0 ==> parts[0] <= s
    ensures |parts| > 0 && SepFree(parts, sep) ==> Count(s, sep) == |parts| - 1
  {
    if |parts| == 0 then ""
    else if |parts| == 1 then
      SepFreeTail(parts, sep);
      parts[0]
    else
      var rest := Join(parts[1..], sep);
      SepFreeTail(parts, sep);
      CountJoinStep(parts[0], rest, sep);
      parts[0] + [sep] + rest
  }

  lemma SepFreeTail(parts: seq<string>, sep: char)
    requires |parts| > 0
    ensures SepFree(parts, sep) ==>
              sep !in parts[0] && Count(parts[0], sep) == 0 && SepFree(parts[1..], sep)
  {
    if SepFree(parts, sep) {
      CountAbsent(parts[0], sep);
      forall k | 0 <= k < |parts[1..]| ensures sep !in parts[1..][k] {
        assert parts[1..][k] == parts[k + 1];
      }
    }
  }

  /** Prefixing a separator-free piece and a separator adds one separator. */
  lemma CountJoinStep(a: string, rest: string, sep: char)
    ensures sep !in a ==> Count(a + [sep] + rest, sep) == Count(rest, sep) + 1
  {
    CountAppend(a, rest, sep);
    if sep !in a {
      CountAbsent(a, sep);
    }
  }

  /** No piece contains the separator. */
  predicate SepFree(parts: seq<string>, sep: char)
  {
    forall k :: 0 <= k < |parts| ==> sep !in parts[k]
  }

  /** The pieces of `s` between separators: never empty (`""` gives `[""]`),
      one more piece than separators, no piece holding a separator, and joining
      them gives `s` back. */
  function Split(s: string, sep: char): (parts: seq<string>)
    ensures |parts| == Count(s, sep) + 1
    ensures SepFree(parts, sep)
    ensures Join(parts, sep) == s
    decreases |s|
  {
    match IndexOf(s, sep)
    case None =>
      CountAbsent(s, sep);
      [s]
    case Some(i) =>
      var rest := Split(s[i + 1..], sep);
      var parts := [s[..i]] + rest;
      assert parts[1..] == rest;
      assert s == s[..i] + [sep] + s[i + 1..];
      CountAppend(s[..i], s[i + 1..], sep);
      CountAbsent(s[..i], sep);
      parts
  }

  /** Every piece of every element split in turn, concatenated in order. */
  function SplitAll(xs: seq<string>, sep: char): seq<string>
  {
    if |xs| == 0 then [] else Split(xs[0], sep) + SplitAll(xs[1..], sep)
  }

  lemma {:induction false} CountAbsent(s: string, c: char)
    requires c !in s
    ensures Count(s, c) == 0
    decreases |s|
  {
    if |s| > 0 {
      assert c !in s[1..] by {
        forall k | 0 <= k < |s[1..]| ensures s[1..][k] != c {
          assert s[1..][k] == s[k + 1];
        }
      }
      CountAbsent(s[1..], c);
    }
  }

  lemma {:induction false} CountAppend(a: string, b: string, c: char)
    ensures Count(a + [c] + b, c) == Count(a, c) + 1 + Count(b, c)
    decreases |a|
  {
    if |a| == 0 {
      assert a + [c] + b == [c] + b;
      assert ([c] + b)[1..] == b;
    } else {
      assert (a + [c] + b)[1..] == a[1..] + [c] + b;
      CountAppend(a[1..], b, c);
    }
  }

  /** The first separator of `a + [sep] + b` is the first one of `a`, or the
      joining one when `a` has none. */
  lemma IndexOfAppend(a: string, b: string, sep: char)
    ensures IndexOf(a + [sep] + b, sep) ==
              (if sep in a then IndexOf(a, sep) else Some(|a|))
  {
    var s := a + [sep] + b;
    var r := IndexOf(s, sep);
    assert s[|a|] == sep;
    assert s[..|a|] == a;
    if sep in a {
      var i := IndexOf(a, sep).value;
      assert s[..i] == a[..i];
      assert s[i] == sep;
    }
  }

  /** One step of Split at a known first separator. */
  lemma SplitStep(s: string, sep: char, i: nat)
    requires IndexOf(s, sep) == Some(i)
    ensures Split(s, sep) == [s[..i]] + Split(s[i + 1..], sep)
  {
  }

  /** Splitting two strings joined by a separator splits each half. */
  lemma {:induction false} SplitAppend(a: string, b: string, sep: char)
    ensures Split(a + [sep] + b, sep) == Split(a, sep) + Split(b, sep)
    decreases |a|
  {
    IndexOfAppend(a, b, sep);
    if sep in a {
      SplitAppendInner(a, b, sep, IndexOf(a, sep).value);
    } else {
      var s := a + [sep] + b;
      assert s[..|a|] == a;
      assert s[|a| + 1..] == b;
      SplitStep(s, sep, |a|);
    }
  }

  /** The case of SplitAppend where `a` has a separator of its own at `i`. */
  lemma {:induction false} SplitAppendInner(a: string, b: string, sep: char, i: nat)
    requires IndexOf(a, sep) == Some(i)
    requires IndexOf(a + [sep] + b, sep) == Some(i)
    ensures Split(a + [sep] + b, sep) == Split(a, sep) + Split(b, sep)
    decreases |a|, 0
  {
    var s := a + [sep] + b;
    var a' := a[i + 1..];
    assert s[..i] == a[..i];
    assert s[i + 1..] == a' + [sep] + b;
    calc {
      Split(s, sep);
      { SplitStep(s, sep, i); }
      [a[..i]] + Split(a' + [sep] + b, sep);
      { SplitAppend(a', b, sep); }
      [a[..i]] + (Split(a', sep) + Split(b, sep));
      ([a[..i]] + Split(a', sep)) + Split(b, sep);
      { SplitStep(a, sep, i); }
      Split(a, sep) + Split(b, sep);
    }
  }

  /** Splitting the joined values is splitting each value and concatenating
      the pieces: the list a repeated query key gives equals the one its
      comma-joined form gives. */
  lemma {:induction false} SplitOfJoin(xs: seq<string>, sep: char)
    requires |xs| > 0
    ensures Split(Join(xs, sep), sep) == SplitAll(xs, sep)
    decreases |xs|
  {
    if |xs| == 1 {
      assert SplitAll(xs[1..], sep) == [];
    } else {
      SplitAppend(xs[0], Join(xs[1..], sep), sep);
      SplitOfJoin(xs[1..], sep);
    }
  }

  /** A separator-free string is its own only piece. */
  lemma SplitSepFree(s: string, sep: char)
    requires sep !in s
    ensures Split(s, sep) == [s]
  {
  }

  lemma {:induction false} SplitAllSepFree(xs: seq<string>, sep: char)
    requires SepFree(xs, sep)
    ensures SplitAll(xs, sep) == xs
    decreases |xs|
  {
    if |xs| > 0 {
      assert sep !in xs[0];
      SplitSepFree(xs[0], sep);
      assert SepFree(xs[1..], sep) by {
        forall k | 0 <= k < |xs[1..]| ensures sep !in xs[1..][k] {
          assert xs[1..][k] == xs[k + 1];
        }
      }
      SplitAllSepFree(xs[1..], sep);
    }
  }

  /** Split undoes Join for a non-empty list of separator-free pieces. */
  lemma {:induction false} SplitJoin(xs: seq<string>, sep: char)
    requires |xs| > 0
    requires SepFree(xs, sep)
    ensures Split(Join(xs, sep), sep) == xs
  {
    SplitOfJoin(xs, sep);
    SplitAllSepFree(xs, sep);
  }

  /** Split is the unique non-empty, separator-free decomposition of `s`. */
  lemma {:induction false} SplitCharacterisation(s: string, parts: seq<string>, sep: char)
    ensures Split(s, sep) == parts <==>
              |parts| > 0 && SepFree(parts, sep) && Join(parts, sep) == s
  {
    if |parts| > 0 && SepFree(parts, sep) && Join(parts, sep) == s {
      SplitJoin(parts, sep);
    }
  }
}
