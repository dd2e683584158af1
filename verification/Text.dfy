/** The Python string operations the modelled code uses, on `seq<char>`. */
module Text {

  /** `s.split(c)` for a one-character separator. */
  function Split(s: string, c: char): (parts: seq<string>)
    ensures parts != []
  {
    if s == "" then [""]
    else
      var rest := Split(s[1..], c);
      if s[0] == c then [""] + rest else [[s[0]] + rest[0]] + rest[1..]
  }

  /** `c.join(parts)`. */
  function Join(parts: seq<string>, c: char): string {
    if parts == [] then ""
    else if |parts| == 1 then parts[0]
    else parts[0] + [c] + Join(parts[1..], c)
  }

  lemma {:induction false} SplitInverse(s: string, c: char)
    ensures Join(Split(s, c), c) == s
    ensures forall i :: 0 <= i < |Split(s, c)| ==> c !in Split(s, c)[i]
  {
    if s != "" {
      SplitInverse(s[1..], c);
      var rest := Split(s[1..], c);
      if s[0] == c {
        assert ([""] + rest)[1..] == rest;
        assert s == [c] + s[1..];
      } else if |rest| > 1 {
        assert ([[s[0]] + rest[0]] + rest[1..])[1..] == rest[1..];
        assert s == [s[0]] + s[1..];
      } else {
        assert s == [s[0]] + s[1..];
      }
    }
  }

  lemma {:induction false} SplitAfterPart(p: string, c: char, rest: string)
    requires c !in p
    ensures Split(p + [c] + rest, c) == [p] + Split(rest, c)
    ensures Split(p, c) == [p]
  {
    var s := p + [c] + rest;
    if p == "" {
      assert s[1..] == rest;
    } else {
      SplitAfterPart(p[1..], c, rest);
      assert s[1..] == p[1..] + [c] + rest;
      assert p == [p[0]] + p[1..];
    }
  }

  lemma {:induction false} JoinInverse(parts: seq<string>, c: char)
    requires parts != [] && forall i :: 0 <= i < |parts| ==> c !in parts[i]
    ensures Split(Join(parts, c), c) == parts
  {
    if |parts| == 1 {
      SplitAfterPart(parts[0], c, "");
    } else {
      JoinInverse(parts[1..], c);
      SplitAfterPart(parts[0], c, Join(parts[1..], c));
      assert parts == [parts[0]] + parts[1..];
    }
  }

  /** A joined list whose parts, all but the last, are free of the separator. */
  lemma {:induction false} SplitOfJoin(parts: seq<string>, last: string, c: char)
    requires forall i :: 0 <= i < |parts| ==> c !in parts[i]
    ensures Split(Join(parts + [last], c), c) == parts + Split(last, c)
    decreases |parts|
  {
    if parts == [] {
      assert [] + Split(last, c) == Split(last, c);
    } else {
      SplitOfJoin(parts[1..], last, c);
      assert (parts + [last])[1..] == parts[1..] + [last];
      SplitAfterPart(parts[0], c, Join(parts[1..] + [last], c));
      assert parts + Split(last, c) == [parts[0]] + (parts[1..] + Split(last, c));
    }
  }

  /** Joining the tail first changes nothing. */
  lemma {:induction false} JoinOfTail(parts: seq<string>, k: nat, c: char)
    requires k < |parts|
    ensures Join(parts, c) == Join(parts[..k] + [Join(parts[k..], c)], c)
    decreases k
  {
    if k == 0 {
      assert parts[..0] + [Join(parts[0..], c)] == [Join(parts, c)];
    } else {
      JoinOfTail(parts[1..], k - 1, c);
      var short := parts[..k] + [Join(parts[k..], c)];
      assert parts[1..][k - 1..] == parts[k..];
      assert short[1..] == parts[1..][..k - 1] + [Join(parts[k..], c)];
    }
  }

  /** `s.rsplit(c, 1)` when `c` occurs in `s`. */
  function CutLast(s: string, c: char): (cut: (string, string))
    requires c in s
    ensures s == cut.0 + [c] + cut.1 && c !in cut.1
  {
    var n := |s| - 1;
    if s[n] == c then (s[..n], "")
    else
      assert s == s[..n] + [s[n]];
      var (head, tail) := CutLast(s[..n], c);
      (head, tail + [s[n]])
  }

  /** `s.split(c, 1)` when `c` occurs in `s`. */
  function CutFirst(s: string, c: char): (cut: (string, string))
    requires c in s
    ensures s == cut.0 + [c] + cut.1 && c !in cut.0
  {
    if s[0] == c then ("", s[1..])
    else
      assert s == [s[0]] + s[1..];
      var (head, tail) := CutFirst(s[1..], c);
      ([s[0]] + head, tail)
  }

  /** The last cut is the only one whose tail is free of the separator. */
  lemma {:induction false} CutLastIsUnique(head: string, c: char, tail: string)
    requires c !in tail
    ensures c in head + [c] + tail && CutLast(head + [c] + tail, c) == (head, tail)
    decreases |tail|
  {
    var s := head + [c] + tail;
    assert s[|head|] == c;
    if tail == "" {
      assert s[..|s| - 1] == head;
    } else {
      var shorter := tail[..|tail| - 1];
      CutLastIsUnique(head, c, shorter);
      assert s[..|s| - 1] == head + [c] + shorter;
      assert tail == shorter + [tail[|tail| - 1]];
    }
  }

  lemma {:induction false} CutFirstIsUnique(head: string, c: char, tail: string)
    requires c !in head
    ensures c in head + [c] + tail && CutFirst(head + [c] + tail, c) == (head, tail)
    decreases |head|
  {
    var s := head + [c] + tail;
    assert s[|head|] == c;
    if head == "" {
      assert s[1..] == tail;
    } else {
      CutFirstIsUnique(head[1..], c, tail);
      assert s[1..] == head[1..] + [c] + tail;
      assert head == [head[0]] + head[1..];
    }
  }

  // ---- substrings ----

  predicate OccursAt(sub: string, s: string, i: nat) {
    i + |sub| <= |s| && s[i..i + |sub|] == sub
  }

  /** `sub in s`. */
  predicate Contains(s: string, sub: string) {
    exists i: nat :: i <= |s| && OccursAt(sub, s, i)
  }

  /** ... that is, `s` is `sub` with something before and something after it. */
  lemma ContainsIsInside(s: string, sub: string)
    ensures Contains(s, sub) <==> exists before, after :: s == before + sub + after
  {
    if i: nat :| i <= |s| && OccursAt(sub, s, i) {
      assert s == s[..i] + sub + s[i + |sub|..];
    }
    forall before: string, after: string | s == before + sub + after
      ensures Contains(s, sub)
    {
      assert s[|before|..|before| + |sub|] == sub;
      assert OccursAt(sub, s, |before|);
    }
  }

  lemma SliceAt(s: string, i: nat, j: nat, k: nat)
    requires i + k < j <= |s|
    ensures s[i..j][k] == s[i + k]
  {
  }

  /** A non-empty substring without the separator lies on one side of it. */
  lemma ContainsAcross(a: string, c: char, b: string, sub: string)
    requires sub != "" && c !in sub
    ensures Contains(a + [c] + b, sub) <==> Contains(a, sub) || Contains(b, sub)
  {
    var s := a + [c] + b;
    forall i: nat | i <= |a| && OccursAt(sub, a, i)
      ensures OccursAt(sub, s, i)
    {
      assert s[i..i + |sub|] == a[i..i + |sub|];
    }
    forall i: nat | i <= |b| && OccursAt(sub, b, i)
      ensures OccursAt(sub, s, |a| + 1 + i)
    {
      assert s[|a| + 1 + i..|a| + 1 + i + |sub|] == b[i..i + |sub|];
    }
    if i: nat :| i <= |s| && OccursAt(sub, s, i) {
      assert i + |sub| <= |a| || |a| < i by {
        if i <= |a| < i + |sub| {
          SliceAt(s, i, i + |sub|, |a| - i);
        }
      }
      if i + |sub| <= |a| {
        assert a[i..i + |sub|] == s[i..i + |sub|];
        assert OccursAt(sub, a, i);
      } else {
        var j := i - |a| - 1;
        assert b[j..j + |sub|] == s[i..i + |sub|];
        assert OccursAt(sub, b, j);
      }
    }
  }

  function Lower(c: char): char {
    if 'A' <= c <= 'Z' then (c as int + 32) as char else c
  }

  /** `s.lower()` on ASCII letters. */
  function ToLower(s: string): (r: string)
    ensures |r| == |s| && forall i :: 0 <= i < |s| ==> r[i] == Lower(s[i])
  {
    seq(|s|, i requires 0 <= i < |s| => Lower(s[i]))
  }

  const UPPER := "ABCDEFGHIJKLMNOPQRSTUVWXYZ"
  const LOWER := "abcdefghijklmnopqrstuvwxyz"

  /** Capitals become the small letters at the same place of the alphabet, nothing else changes. */
  lemma LowerFollowsTheAlphabet(c: char)
    ensures forall i :: 0 <= i < 26 ==> Lower(UPPER[i]) == LOWER[i]
    ensures c !in UPPER ==> Lower(c) == c
  {
    if 'A' <= c <= 'Z' {
      var i := c as int - 'A' as int;
      assert UPPER[i] == c;
    }
  }
}
