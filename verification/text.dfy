/**
  Small facts about strings that the output formats are read back with:
  prefixes, suffixes and splitting at a separator character.
 */
module Text {

  datatype Option<+T> = None | Some(value: T)

  predicate StartsWith(s: string, prefix: string) {
    |prefix| <= |s| && s[..|prefix|] == prefix
  }

  predicate EndsWith(s: string, suffix: string) {
    |suffix| <= |s| && s[|s| - |suffix|..] == suffix
  }

  lemma StartsWithJoin(s: string, prefix: string, more: string)
    requires StartsWith(s, prefix)
    ensures StartsWith(s + more, prefix)
  {
    assert (s + more)[..|prefix|] == s[..|prefix|];
  }

  /** What follows `prefix` in `s`, when `s` starts with it. */
  function StripPrefix(s: string, prefix: string): (r: Option<string>)
    ensures r.Some? <==> StartsWith(s, prefix)
    ensures r.Some? ==> prefix + r.value == s
  {
    if StartsWith(s, prefix) then
      assert s == s[..|prefix|] + s[|prefix|..];
      Some(s[|prefix|..])
    else None
  }

  /** What precedes `suffix` in `s`, when `s` ends with it. */
  function StripSuffix(s: string, suffix: string): (r: Option<string>)
    ensures r.Some? <==> EndsWith(s, suffix)
    ensures r.Some? ==> r.value + suffix == s
  {
    if EndsWith(s, suffix) then
      assert s == s[..|s| - |suffix|] + s[|s| - |suffix|..];
      Some(s[..|s| - |suffix|])
    else None
  }

  lemma StripPrefixOfJoin(prefix: string, rest: string)
    ensures StripPrefix(prefix + rest, prefix) == Some(rest)
  {
    assert (prefix + rest)[..|prefix|] == prefix;
  }

  lemma StripSuffixOfJoin(front: string, suffix: string)
    ensures StripSuffix(front + suffix, suffix) == Some(front)
  {
    var s := front + suffix;
    assert s[|s| - |suffix|..] == suffix;
  }

  /** The position of the first `c` in `s`, if there is one. */
  function IndexOf(s: string, c: char): (r: Option<nat>)
    ensures r.Some? ==> r.value < |s| && s[r.value] == c && c !in s[..r.value]
    ensures r.None? <==> c !in s
  {
    if s == [] then None
    else if s[0] == c then Some(0)
    else
      match IndexOf(s[1..], c)
      case None => None
      case Some(i) =>
        assert s[..i + 1] == [s[0]] + s[1..][..i];
        Some(i + 1)
  }

  /** `s` cut at its first `sep`: the text before it and the text after it. */
  function SplitAt(s: string, sep: char): (r: Option<(string, string)>)
    ensures r.Some? ==> r.value.0 + [sep] + r.value.1 == s && sep !in r.value.0
    ensures r.None? <==> sep !in s
  {
    match IndexOf(s, sep)
    case None => None
    case Some(i) =>
      assert s == s[..i] + [sep] + s[i + 1..];
      Some((s[..i], s[i + 1..]))
  }

  /** Joining two pieces with a separator that the first piece does not
      contain, and splitting at that separator again, gives back the pieces. */
  lemma SplitJoin(front: string, sep: char, back: string)
    requires sep !in front
    ensures SplitAt(front + [sep] + back, sep) == Some((front, back))
  {
    var s := front + [sep] + back;
    assert s[|front|] == sep;
    var r := SplitAt(s, sep);
    assert r.Some?;
    var (a, b) := r.value;
    assert |a| == |front| by {
      if |a| < |front| {
        assert false;
      } else if |a| > |front| {
        assert false;
      }
    }
    assert a == s[..|front|] == front;
    assert b == s[|front| + 1..] == back;
  }

  /** The texts `f` gives for the first `n` elements of `xs`, concatenated
      in order. */
  function Flatten<T>(xs: seq<T>, n: nat, f: T -> string): string
    requires n <= |xs|
  {
    if n == 0 then "" else Flatten(xs, n - 1, f) + f(xs[n - 1])
  }

  /** The text of the first `n` elements starts with the text of the first
      `k` of them followed by that of element `k`, for every `k < n`. */
  lemma {:induction false} FlattenStartsWith<T>(xs: seq<T>, f: T -> string, k: nat, n: nat)
    requires k < n <= |xs|
    ensures StartsWith(Flatten(xs, n, f), Flatten(xs, k, f) + f(xs[k]))
    decreases n
  {
    var s := Flatten(xs, k, f) + f(xs[k]);
    if n == k + 1 {
      assert Flatten(xs, n, f) == s;
      assert s[..|s|] == s;
    } else {
      FlattenStartsWith(xs, f, k, n - 1);
      StartsWithJoin(Flatten(xs, n - 1, f), s, f(xs[n - 1]));
    }
  }
}
