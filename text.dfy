/** The String.prototype operations the store and the dashboard helpers use. */
module Text {

  /** `toLowerCase` on one character; only ASCII letters are mapped. */
  function LowerChar(c: char): char {
    if 'A' <= c <= 'Z' then (c as int + 32) as char else c
  }

  /** `toUpperCase` on one character; only ASCII letters are mapped. */
  function UpperChar(c: char): char {
    if 'a' <= c <= 'z' then (c as int - 32) as char else c
  }

  /** `s.toLowerCase()` */
  function ToLower(s: string): (r: string)
    ensures |r| == |s|
    ensures forall i :: 0 <= i < |s| ==> r[i] == LowerChar(s[i])
  {
    seq(|s|, i requires 0 <= i < |s| => LowerChar(s[i]))
  }

  /** `sub` occurs in `s` starting at index i. */
  predicate OccursAt(s: string, sub: string, i: nat) {
    i + |sub| <= |s| && s[i..i + |sub|] == sub
  }

  /** `s.includes(sub)`, scanning s from the left. */
  function Includes(s: string, sub: string): (r: bool)
    ensures sub == [] ==> r
    ensures |sub| <= |s| && s[..|sub|] == sub ==> r
    ensures r ==> |sub| <= |s|
    ensures r && |sub| == |s| ==> s == sub
    decreases |s|
  {
    if |sub| > |s| then false
    else s[..|sub|] == sub || (|s| > 0 && Includes(s[1..], sub))
  }

  /** The scan finds `sub` exactly when it occurs somewhere in `s`. */
  lemma {:induction false} IncludesIff(s: string, sub: string)
    ensures Includes(s, sub) <==> exists i: nat :: OccursAt(s, sub, i)
    decreases |s|
  {
    if |sub| > |s| {
      forall i: nat ensures !OccursAt(s, sub, i) { }
    } else if s[..|sub|] == sub {
      assert OccursAt(s, sub, 0);
    } else {
      IncludesIff(s[1..], sub);
      if Includes(s[1..], sub) {
        var i: nat :| OccursAt(s[1..], sub, i);
        assert s[i + 1..i + 1 + |sub|] == s[1..][i..i + |sub|];
        assert OccursAt(s, sub, i + 1);
      } else {
        forall i: nat | OccursAt(s, sub, i) ensures false {
          if i > 0 {
            assert s[1..][i - 1..i - 1 + |sub|] == s[i..i + |sub|];
            assert OccursAt(s[1..], sub, i - 1);
          }
        }
      }
    }
  }

  /** `parts.join(sep)` */
  function Join(parts: seq<string>, sep: string): string {
    if parts == [] then ""
    else if |parts| == 1 then parts[0]
    else parts[0] + sep + Join(parts[1..], sep)
  }

  /**
   * The joined string is empty for no parts and the part itself for one;
   * otherwise it starts with the first part, followed by sep when more parts
   * follow, and ends with the last part.
   */
  lemma {:induction false} JoinShape(parts: seq<string>, sep: string)
    ensures parts == [] ==> Join(parts, sep) == ""
    ensures |parts| == 1 ==> Join(parts, sep) == parts[0]
    ensures parts != [] ==> |Join(parts, sep)| >= |parts[0]| && Join(parts, sep)[..|parts[0]|] == parts[0]
    ensures |parts| > 1 ==> |Join(parts, sep)| >= |parts[0]| + |sep| && Join(parts, sep)[|parts[0]|..|parts[0]| + |sep|] == sep
    ensures parts != [] ==>
              var r, last := Join(parts, sep), parts[|parts| - 1];
              |r| >= |last| && r[|r| - |last|..] == last
  {
    if |parts| > 1 {
      JoinShape(parts[1..], sep);
      var r, rest := Join(parts, sep), Join(parts[1..], sep);
      var last := parts[|parts| - 1];
      assert last == parts[1..][|parts[1..]| - 1];
      assert r == (parts[0] + sep) + rest;
      assert r[|r| - |last|..] == rest[|rest| - |last|..];
    }
  }

  /** Joining a concatenation puts one separator between two non-empty halves. */
  lemma {:induction false} JoinAppend(xs: seq<string>, ys: seq<string>, sep: string)
    ensures Join(xs + ys, sep) ==
              if xs == [] then Join(ys, sep)
              else if ys == [] then Join(xs, sep)
              else Join(xs, sep) + sep + Join(ys, sep)
    decreases |xs|, 1
  {
    if xs == [] {
      assert xs + ys == ys;
    } else if ys == [] {
      assert xs + ys == xs;
    } else if |xs| == 1 {
      assert (xs + ys)[1..] == ys;
    } else {
      JoinAppendLong(xs, ys, sep);
    }
  }

  /** The step of JoinAppend for a first half of two or more parts. */
  lemma {:induction false} JoinAppendLong(xs: seq<string>, ys: seq<string>, sep: string)
    requires |xs| > 1 && ys != []
    ensures Join(xs + ys, sep) == Join(xs, sep) + sep + Join(ys, sep)
    decreases |xs|, 0
  {
    assert (xs + ys)[0] == xs[0];
    assert (xs + ys)[1..] == xs[1..] + ys;
    JoinAppend(xs[1..], ys, sep);
    var a, b, c := Join(xs[1..], sep), Join(ys, sep), xs[0] + sep;
    assert Join(xs + ys, sep) == c + (a + sep + b);
    assert c + (a + sep + b) == (c + a) + sep + b;
  }
}
