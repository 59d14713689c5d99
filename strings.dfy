/**
 * The few string operations of JavaScript the widget uses, on `seq<char>`:
 * `includes` and `split` on a one-character separator. `IndexOf` is where
 * `split` cuts.
 */
module Strings {

  /** Position of the first `c` in `s`, or `|s|` when `s` has none. */
  function IndexOf(s: string, c: char): (i: nat)
    ensures i <= |s|
    ensures i < |s| ==> s[i] == c
    ensures c !in s[..i]
    ensures i == |s| <==> c !in s
  {
    if s == [] then 0
    else if s[0] == c then 0
    else
      var j := IndexOf(s[1..], c);
      assert s[..1 + j] == [s[0]] + s[1..][..j];
      1 + j
  }

  /**
   * `s.split(sep)`: the maximal pieces of `s` between separators, so that
   * `"a b".split(" ")` is `["a", "b"]` and `"".split(" ")` is `[""]`.
   */
  function Split(s: string, sep: char): (parts: seq<string>)
    ensures |parts| >= 1
    ensures |parts| > 1 <==> sep in s
    ensures forall k :: 0 <= k < |parts| ==> sep !in parts[k]
    ensures parts[0] == s[..IndexOf(s, sep)]
    decreases |s|
  {
    var i := IndexOf(s, sep);
    if i == |s| then [s]
    else [s[..i]] + Split(s[i + 1..], sep)
  }

  /** `parts.join(sep)`, the reference against which Split is checked. */
  function Join(parts: seq<string>, sep: char): string
    requires |parts| >= 1
  {
    if |parts| == 1 then parts[0]
    else parts[0] + [sep] + Join(parts[1..], sep)
  }

  /** Splitting loses nothing: joining the pieces gives the string back. */
  lemma {:induction false} JoinSplit(s: string, sep: char)
    ensures Join(Split(s, sep), sep) == s
    decreases |s|
  {
    var i := IndexOf(s, sep);
    if i < |s| {
      var head, tail := s[..i], s[i + 1..];
      assert s == head + [sep] + tail;
      JoinSplit(tail, sep);
      JoinSplitStep(s, sep, head, tail);
    }
  }

  /** One step of JoinSplit: cutting at the first separator and joining back. */
  lemma JoinSplitStep(s: string, sep: char, head: string, tail: string)
    requires IndexOf(s, sep) == |head| < |s| && s == head + [sep] + tail
    requires Join(Split(tail, sep), sep) == tail
    ensures Join(Split(s, sep), sep) == s
  {
    assert s[..|head|] == head && s[|head| + 1..] == tail;
    var rest := Split(tail, sep);
    assert Split(s, sep) == [head] + rest;
    assert ([head] + rest)[1..] == rest;
  }

  /** The first separator of `a + [sep] + b` is the one after `a` when `a` has none. */
  lemma IndexOfAfter(a: string, sep: char, b: string)
    requires sep !in a
    ensures IndexOf(a + [sep] + b, sep) == |a|
  {
    var s := a + [sep] + b;
    assert s[..|a|] == a && s[|a|] == sep;
  }

  /** Splitting at a first separator that follows `head` gives `head`, then the rest's pieces. */
  lemma SplitAfter(head: string, sep: char, rest: string)
    requires sep !in head
    ensures Split(head + [sep] + rest, sep) == [head] + Split(rest, sep)
  {
    var s := head + [sep] + rest;
    IndexOfAfter(head, sep, rest);
    assert s[..|head|] == head;
    assert s[|head| + 1..] == rest;
  }

  /** Pieces that hold no separator are recovered by splitting their join. */
  lemma {:induction false} SplitJoin(parts: seq<string>, sep: char)
    requires |parts| >= 1
    requires forall k :: 0 <= k < |parts| ==> sep !in parts[k]
    ensures Split(Join(parts, sep), sep) == parts
    decreases |parts|
  {
    if |parts| > 1 {
      var tail := parts[1..];
      assert sep !in parts[0];
      assert forall k :: 0 <= k < |tail| ==> sep !in tail[k] by {
        forall k | 0 <= k < |tail| ensures sep !in tail[k] {
          assert tail[k] == parts[k + 1];
        }
      }
      SplitJoin(tail, sep);
      SplitAfter(parts[0], sep, Join(tail, sep));
      assert parts == [parts[0]] + tail;
    }
  }
}
