/** The few string operations of Python's `str` that the modelled code uses. */
module Text {

  /** `s.replace(c, t)` for a one-character pattern `c`: every occurrence of `c` becomes `t`. */
  function Replace(s: string, c: char, t: string): string
  {
    if s == [] then [] else (if s[0] == c then t else [s[0]]) + Replace(s[1..], c, t)
  }

  lemma {:induction false} ReplaceAppend(a: string, b: string, c: char, t: string)
    ensures Replace(a + b, c, t) == Replace(a, c, t) + Replace(b, c, t)
  {
    if a != [] {
      assert (a + b)[1..] == a[1..] + b;
      ReplaceAppend(a[1..], b, c, t);
    } else {
      assert a + b == b;
    }
  }

  /** A string free of the pattern is returned unchanged. */
  lemma {:induction false} ReplaceAbsent(s: string, c: char, t: string)
    requires c !in s
    ensures Replace(s, c, t) == s
  {
    if s != [] {
      ReplaceAbsent(s[1..], c, t);
    }
  }

  /** A character is in the result only if it was in the input (and is not the pattern) or is in the replacement. */
  lemma {:induction false} ReplaceChars(s: string, c: char, t: string, d: char)
    ensures d in Replace(s, c, t) ==> (d in s && d != c) || d in t
  {
    if s != [] {
      ReplaceChars(s[1..], c, t, d);
    }
  }

  /** The number of times `c` occurs in `s`. */
  function Occurrences(s: string, c: char): nat
  {
    if s == [] then 0 else (if s[0] == c then 1 else 0) + Occurrences(s[1..], c)
  }

  /** Each occurrence of the pattern grows the string by `|t| - 1`. */
  lemma {:induction false} ReplaceLength(s: string, c: char, t: string)
    ensures |Replace(s, c, t)| == |s| + Occurrences(s, c) * (|t| - 1)
  {
    if s != [] {
      ReplaceLength(s[1..], c, t);
    }
  }

  /** Replacing a character by a one-character string keeps the length. */
  lemma {:induction false} ReplaceKeepsLength(s: string, c: char, t: string)
    ensures |t| == 1 ==> |Replace(s, c, t)| == |s|
  {
    if s != [] {
      ReplaceKeepsLength(s[1..], c, t);
    }
  }

  /** Replacing by a single character `d` maps each character on its own: `c` to `d`, the rest unchanged. */
  lemma {:induction false} ReplaceAt(s: string, c: char, d: char)
    ensures |Replace(s, c, [d])| == |s|
    ensures forall i :: 0 <= i < |s| ==> Replace(s, c, [d])[i] == if s[i] == c then d else s[i]
  {
    if s != [] {
      ReplaceAt(s[1..], c, d);
      var r := Replace(s, c, [d]);
      assert r == [if s[0] == c then d else s[0]] + Replace(s[1..], c, [d]);
      forall i | 1 <= i < |s| ensures r[i] == if s[i] == c then d else s[i] {
        assert r[i] == Replace(s[1..], c, [d])[i - 1] && s[i] == s[1..][i - 1];
      }
    }
  }

  /** Replacing `c` by a fresh character `d` and then `d` back by `c` restores the string. */
  lemma {:induction false} ReplaceUndo(s: string, c: char, d: char)
    requires d !in s
    ensures Replace(Replace(s, c, [d]), d, [c]) == s
  {
    if s != [] {
      ReplaceUndo(s[1..], c, d);
      var head := if s[0] == c then [d] else [s[0]];
      ReplaceAppend(head, Replace(s[1..], c, [d]), d, [c]);
    }
  }

  /** `sep.join(parts)`. */
  function Join(sep: string, parts: seq<string>): string
  {
    if parts == [] then "" else if |parts| == 1 then parts[0] else parts[0] + sep + Join(sep, parts[1..])
  }

  /** Joining one more part appends the separator and that part. */
  lemma {:induction false} JoinSnoc(sep: string, parts: seq<string>, last: string)
    requires parts != []
    ensures Join(sep, parts + [last]) == Join(sep, parts) + sep + last
  {
    if |parts| > 1 {
      assert (parts + [last])[1..] == parts[1..] + [last];
      JoinSnoc(sep, parts[1..], last);
    }
  }

  function DigitChar(d: int): char
    requires 0 <= d < 10
  {
    ('0' as int + d) as char
  }

  function NatToString(n: nat): string
    decreases n
  {
    if n < 10 then [DigitChar(n)] else NatToString(n / 10) + [DigitChar(n % 10)]
  }

  /** `str(n)` for an integer `n`. */
  function IntToString(n: int): string
  {
    if n < 0 then "-" + NatToString(-n) else NatToString(n)
  }
}
