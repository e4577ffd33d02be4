/** The Python string operations the ingest scripts rely on: strip with a
    set of characters, split on one separator, ASCII lower-casing and
    substring search. */
module PyStr {

  /** str.isspace() and the regular expression class \s. */
  predicate IsSpace(c: char) {
    '\t' <= c <= '\r' || '\U{1c}' <= c <= ' ' || c == '\U{85}' || c == '\U{a0}' || c == '\U{1680}'
    || '\U{2000}' <= c <= '\U{200a}' || c == '\U{2028}' || c == '\U{2029}' || c == '\U{202f}'
    || c == '\U{205f}' || c == '\U{3000}'
  }

  /** The first index at or after i whose character is kept. */
  function KeepFrom(s: string, drop: char -> bool, i: nat): (r: nat)
    requires i <= |s|
    ensures i <= r <= |s| && (r < |s| ==> !drop(s[r]))
    ensures forall k :: i <= k < r ==> drop(s[k])
    decreases |s| - i
  {
    if i == |s| || !drop(s[i]) then i else KeepFrom(s, drop, i + 1)
  }

  /** One past the last index below j whose character is kept, not below lo. */
  function KeepUntil(s: string, drop: char -> bool, lo: nat, j: nat): (r: nat)
    requires lo <= j <= |s|
    ensures lo <= r <= j && (r > lo ==> !drop(s[r - 1]))
    ensures forall k :: r <= k < j ==> drop(s[k])
    decreases j
  {
    if j == lo || !drop(s[j - 1]) then j else KeepUntil(s, drop, lo, j - 1)
  }

  /** s.strip(chars), with the characters to remove given by drop. */
  function Strip(s: string, drop: char -> bool): (r: string)
    ensures |r| <= |s|
    ensures |r| > 0 ==> !drop(r[0]) && !drop(r[|r| - 1])
  {
    var lo := KeepFrom(s, drop, 0);
    s[lo..KeepUntil(s, drop, lo, |s|)]
  }

  /** Strip removes exactly droppable characters at the two ends. */
  lemma StripShape(s: string, drop: char -> bool)
    ensures var lo := KeepFrom(s, drop, 0);
      var hi := KeepUntil(s, drop, lo, |s|);
      Strip(s, drop) == s[lo..hi] && (forall k :: 0 <= k < lo || hi <= k < |s| ==> drop(s[k]))
  {
  }

  /** Stripping twice is stripping once. */
  lemma StripIdempotent(s: string, drop: char -> bool)
    ensures Strip(Strip(s, drop), drop) == Strip(s, drop)
  {
    var r := Strip(s, drop);
    if |r| > 0 {
      assert KeepFrom(r, drop, 0) == 0;
      assert KeepUntil(r, drop, 0, |r|) == |r|;
    } else {
      assert KeepFrom(r, drop, 0) == 0;
    }
  }

  /** A string whose ends are kept is its own strip. */
  lemma StripKept(s: string, drop: char -> bool)
    requires |s| > 0 ==> !drop(s[0]) && !drop(s[|s| - 1])
    ensures Strip(s, drop) == s
  {
    if |s| > 0 {
      assert KeepFrom(s, drop, 0) == 0;
      assert KeepUntil(s, drop, 0, |s|) == |s|;
    } else {
      assert KeepFrom(s, drop, 0) == 0;
    }
  }

  /** A kept first character and a kept last character before a run of
      droppable ones: strip removes exactly the run. */
  lemma StripTrailing(x: string, tail: string, drop: char -> bool)
    requires |x| > 0 && !drop(x[0]) && !drop(x[|x| - 1])
    requires forall k :: 0 <= k < |tail| ==> drop(tail[k])
    ensures Strip(x + tail, drop) == x
  {
    var s := x + tail;
    assert KeepFrom(s, drop, 0) == 0;
    var hi := KeepUntil(s, drop, 0, |s|);
    assert !drop(s[|x| - 1]);
    assert hi == |x|;
    assert s[..|x|] == x;
  }

  /** s.split(sep) for a one-character separator. */
  function Split(s: string, sep: char): (r: seq<string>)
    ensures |r| >= 1
    ensures forall k :: 0 <= k < |r| ==> sep !in r[k]
    decreases |s|
  {
    if |s| == 0 then [""]
    else
      var rest := Split(s[1..], sep);
      if s[0] == sep then [""] + rest else [[s[0]] + rest[0]] + rest[1..]
  }

  /** sep.join(parts). */
  function Join(parts: seq<string>, sep: char): string
    decreases |parts|
  {
    if |parts| == 0 then ""
    else if |parts| == 1 then parts[0]
    else parts[0] + [sep] + Join(parts[1..], sep)
  }

  /** Joining the pieces of a split gives the string back. */
  lemma {:induction false} JoinSplit(s: string, sep: char)
    ensures Join(Split(s, sep), sep) == s
    decreases |s|
  {
    if |s| > 0 {
      var rest := Split(s[1..], sep);
      JoinSplit(s[1..], sep);
      if s[0] == sep {
        assert Split(s, sep) == [""] + rest;
        assert s == [sep] + s[1..];
      } else {
        var parts := [[s[0]] + rest[0]] + rest[1..];
        assert Split(s, sep) == parts;
        if |rest| == 1 {
          assert s == [s[0]] + s[1..];
        } else {
          assert parts[1..] == rest[1..];
          assert Join(rest, sep) == rest[0] + [sep] + Join(rest[1..], sep);
          assert s == [s[0]] + s[1..];
        }
      }
    }
  }

  /** A split gives one piece exactly when the separator does not occur. */
  lemma {:induction false} SplitOne(s: string, sep: char)
    ensures |Split(s, sep)| == 1 <==> sep !in s
    decreases |s|
  {
    if |s| > 0 {
      SplitOne(s[1..], sep);
      assert sep in s <==> s[0] == sep || sep in s[1..] by {
        assert s == [s[0]] + s[1..];
      }
    }
  }

  /** Without the separator, a split gives the string itself. */
  lemma {:induction false} SplitAbsent(a: string, sep: char)
    requires sep !in a
    ensures Split(a, sep) == [a]
    decreases |a|
  {
    if |a| > 0 {
      assert sep !in a[1..];
      SplitAbsent(a[1..], sep);
      assert [a[0]] + a[1..] == a;
    }
  }

  /** Two pieces around one separator split back into those pieces. */
  lemma {:induction false} SplitTwo(a: string, b: string, sep: char)
    requires sep !in a && sep !in b
    ensures Split(a + [sep] + b, sep) == [a, b]
    decreases |a|
  {
    var s := a + [sep] + b;
    if |a| == 0 {
      assert s[1..] == b;
      SplitAbsent(b, sep);
    } else {
      assert s[1..] == a[1..] + [sep] + b;
      assert sep !in a[1..];
      SplitTwo(a[1..], b, sep);
      assert [a[0]] + a[1..] == a;
    }
  }

  /** Python's lower() on the ASCII letters. */
  function LowerChar(c: char): (r: char)
    ensures 'A' <= c <= 'Z' ==> r as int == c as int + 32
    ensures !('A' <= c <= 'Z') ==> r == c
  {
    if 'A' <= c <= 'Z' then (c as int + 32) as char else c
  }

  function Lower(s: string): (r: string)
    ensures |r| == |s| && forall k :: 0 <= k < |s| ==> r[k] == LowerChar(s[k])
  {
    seq(|s|, k requires 0 <= k < |s| => LowerChar(s[k]))
  }

  lemma LowerIdempotent(s: string)
    ensures Lower(Lower(s)) == Lower(s)
  {
    assert forall k :: 0 <= k < |s| ==> LowerChar(LowerChar(s[k])) == LowerChar(s[k]);
  }

  /** t occurs in s at position i. */
  predicate OccursAt(s: string, t: string, i: nat) {
    i + |t| <= |s| && s[i..i + |t|] == t
  }

  /** s.find(t) >= 0, searching from position i. */
  predicate ContainsFrom(s: string, t: string, i: nat)
    requires i <= |s|
    decreases |s| - i
  {
    OccursAt(s, t, i) || (i < |s| && ContainsFrom(s, t, i + 1))
  }

  predicate Contains(s: string, t: string) {
    ContainsFrom(s, t, 0)
  }

  /** The search finds t exactly when t occurs somewhere at or after i. */
  lemma {:induction false} ContainsFromOccurs(s: string, t: string, i: nat)
    requires i <= |s|
    ensures ContainsFrom(s, t, i) <==> exists k :: i <= k <= |s| && OccursAt(s, t, k)
    decreases |s| - i
  {
    if i < |s| {
      ContainsFromOccurs(s, t, i + 1);
    } else {
      assert ContainsFrom(s, t, i) == OccursAt(s, t, i);
    }
  }
}
