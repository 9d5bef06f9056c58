/** String operations over strings of Unicode scalar values: the JavaScript
    operations the text-to-SQL helpers call (`join`, `trim`, `toUpperCase`,
    `startsWith`, `substring`), SQLite's ASCII case folding for `LIKE`, and
    `Split`, which the helpers never call but which reads rendered text back
    into lines to state what the rendering contains. */
module Text {

  /** `parts.join(sep)`: the parts with `sep` between neighbours. */
  function Join(parts: seq<string>, sep: string): string
  {
    if |parts| == 0 then ""
    else if |parts| == 1 then parts[0]
    else parts[0] + sep + Join(parts[1..], sep)
  }

  /** The maximal pieces of `s` between occurrences of `c`, as `split` with
      a one-character separator gives them; the empty string splits into one
      empty piece. Used to read rendered text back into its lines. */
  function Split(s: string, c: char): (pieces: seq<string>)
    ensures |pieces| >= 1
  {
    if |s| == 0 then [""]
    else
      var rest := Split(s[1..], c);
      if s[0] == c then [""] + rest
      else [[s[0]] + rest[0]] + rest[1..]
  }

  /** No part contains the character `c`. */
  predicate NoneContains(parts: seq<string>, c: char)
  {
    forall i :: 0 <= i < |parts| ==> c !in parts[i]
  }

  lemma {:induction false} SplitWithoutSeparator(s: string, c: char)
    requires c !in s
    ensures Split(s, c) == [s]
    decreases |s|
  {
    if |s| > 0 {
      assert c !in s[1..];
      SplitWithoutSeparator(s[1..], c);
      assert [s[0]] + s[1..] == s;
    }
  }

  /** A separator-free prefix glues onto the first piece of what follows it. */
  lemma {:induction false} SplitGluesPrefix(a: string, t: string, c: char)
    requires c !in a
    ensures Split(a + t, c) == [a + Split(t, c)[0]] + Split(t, c)[1..]
    decreases |a|
  {
    if |a| > 0 {
      var s := a + t;
      assert s[0] == a[0] && s[1..] == a[1..] + t;
      SplitGluesPrefix(a[1..], t, c);
      assert [a[0]] + (a[1..] + Split(t, c)[0]) == a + Split(t, c)[0];
    } else {
      var r := Split(t, c);
      assert a + t == t && a + r[0] == r[0];
      assert [r[0]] + r[1..] == r;
    }
  }

  /** Joining with a one-character separator that no part contains and
      splitting on it again gives back the parts. */
  lemma {:induction false} SplitJoin(parts: seq<string>, c: char)
    requires |parts| >= 1
    requires NoneContains(parts, c)
    ensures Split(Join(parts, [c]), c) == parts
    decreases |parts|
  {
    if |parts| == 1 {
      SplitWithoutSeparator(parts[0], c);
    } else {
      var tail := Join(parts[1..], [c]);
      assert NoneContains(parts[1..], c) by {
        forall i | 0 <= i < |parts[1..]| ensures c !in parts[1..][i] {
          assert parts[1..][i] == parts[i + 1];
        }
      }
      SplitJoin(parts[1..], c);
      assert c !in parts[0];
      calc {
        Split(Join(parts, [c]), c);
        { assert Join(parts, [c]) == parts[0] + ([c] + tail); }
        Split(parts[0] + ([c] + tail), c);
        { SplitGluesPrefix(parts[0], [c] + tail, c);
          assert ([c] + tail)[0] == c && ([c] + tail)[1..] == tail; }
        [parts[0] + ""] + Split(tail, c);
        { assert parts[0] + "" == parts[0]; }
        [parts[0]] + parts[1..];
      }
    }
  }

  /** A character found in neither the parts nor the separator is not in the join. */
  lemma {:induction false} JoinAvoids(parts: seq<string>, sep: string, c: char)
    requires NoneContains(parts, c) && c !in sep
    ensures c !in Join(parts, sep)
    decreases |parts|
  {
    if |parts| > 1 {
      assert NoneContains(parts[1..], c) by {
        forall i | 0 <= i < |parts| - 1 ensures c !in parts[1..][i] {
          assert parts[1..][i] == parts[i + 1];
        }
      }
      JoinAvoids(parts[1..], sep, c);
      assert c !in parts[0];
    }
  }

  /** Appending a part appends the separator and the part. */
  lemma {:induction false} JoinAppend(parts: seq<string>, x: string, sep: string)
    requires |parts| >= 1
    ensures Join(parts + [x], sep) == Join(parts, sep) + sep + x
    decreases |parts|
  {
    if |parts| >= 2 {
      assert (parts + [x])[1..] == parts[1..] + [x];
      JoinAppend(parts[1..], x, sep);
    } else {
      assert parts + [x] == [parts[0], x];
      assert [parts[0], x][1..] == [x];
    }
  }

  /** The joined text opens with the first part. */
  lemma JoinStartsWithFirst(parts: seq<string>, sep: string)
    requires |parts| >= 1
    ensures StartsWith(Join(parts, sep), parts[0])
  {
    if |parts| >= 2 {
      assert Join(parts, sep)[..|parts[0]|] == parts[0];
    }
  }

  /** With at least two parts the joined text contains the separator. */
  lemma JoinShowsSeparator(parts: seq<string>, c: char)
    requires |parts| >= 2
    ensures c in Join(parts, [c])
  {
    assert Join(parts, [c])[|parts[0]|] == c;
  }

  /** The characters JavaScript's `String.prototype.trim` removes: the
      WhiteSpace (including every space separator of category Zs) and
      LineTerminator code points of section 12.2 and 12.3 of ECMA-262. */
  predicate IsJsWhitespace(c: char)
  {
    || c == '\t' || c == '\U{000B}' || c == '\U{000C}' || c == ' '
    || c == '\U{00A0}' || c == '\U{FEFF}' || c == '\U{1680}'
    || ('\U{2000}' <= c <= '\U{200A}')
    || c == '\U{202F}' || c == '\U{205F}' || c == '\U{3000}'
    || c == '\n' || c == '\r' || c == '\U{2028}' || c == '\U{2029}'
  }

  /** `s` without its leading whitespace. */
  function TrimStart(s: string): string
  {
    if |s| > 0 && IsJsWhitespace(s[0]) then TrimStart(s[1..]) else s
  }

  /** `TrimStart` drops a whitespace-only prefix and stops at the first
      character that is not whitespace. */
  lemma {:induction false} TrimStartShape(s: string)
    ensures var r := TrimStart(s);
      && |r| <= |s| && r == s[|s| - |r|..]
      && (forall i :: 0 <= i < |s| - |r| ==> IsJsWhitespace(s[i]))
      && (|r| == 0 || !IsJsWhitespace(r[0]))
    decreases |s|
  {
    if |s| > 0 && IsJsWhitespace(s[0]) {
      TrimStartShape(s[1..]);
    }
  }

  lemma {:induction false} TrimStartSkipsBlanks(blanks: string, rest: string)
    requires forall k :: 0 <= k < |blanks| ==> IsJsWhitespace(blanks[k])
    ensures TrimStart(blanks + rest) == TrimStart(rest)
    decreases |blanks|
  {
    if |blanks| > 0 {
      assert (blanks + rest)[1..] == blanks[1..] + rest;
      TrimStartSkipsBlanks(blanks[1..], rest);
    } else {
      assert blanks + rest == rest;
    }
  }

  /** `s` without its trailing whitespace. */
  function TrimEnd(s: string): string
  {
    if |s| > 0 && IsJsWhitespace(s[|s| - 1]) then TrimEnd(s[..|s| - 1]) else s
  }

  /** `TrimEnd` drops a whitespace-only suffix and stops at the last
      character that is not whitespace. */
  lemma {:induction false} TrimEndShape(s: string)
    ensures var r := TrimEnd(s);
      && |r| <= |s| && r == s[..|r|]
      && (forall i :: |r| <= i < |s| ==> IsJsWhitespace(s[i]))
      && (|r| == 0 || !IsJsWhitespace(r[|r| - 1]))
    decreases |s|
  {
    if |s| > 0 && IsJsWhitespace(s[|s| - 1]) {
      TrimEndShape(s[..|s| - 1]);
      assert s[..|s| - 1][..|TrimEnd(s)|] == s[..|TrimEnd(s)|];
    }
  }

  /** `s.trim()`. */
  function Trim(s: string): string
  {
    TrimEnd(TrimStart(s))
  }

  /** The upper case of one character, as `toUpperCase` gives it with
      Unicode's full case mapping, which can turn one character into two:
      ASCII `a`..`z` become `A`..`Z`, U+017F (long s) becomes `S`, U+00DF
      (sharp s) becomes `SS`, U+1E97 (t with diaeresis) becomes `T` followed
      by U+0308 (combining diaeresis), and the ligatures U+FB05 and U+FB06
      become `ST`. These are the characters whose upper case begins with one
      of the letters S, E, L, C or T, apart from those letters themselves.
      Every other character is left as it is. */
  function UpperOf(c: char): (u: string)
    ensures 1 <= |u| <= 2
  {
    if 'a' <= c <= 'z' then [(c as int - 32) as char]
    else if c == '\U{017F}' then "S"
    else if c == '\U{00DF}' then "SS"
    else if c == '\U{1E97}' then "T\U{0308}"
    else if c == '\U{FB05}' || c == '\U{FB06}' then "ST"
    else [c]
  }

  /** `s.toUpperCase()`: the upper cases of the characters, concatenated. */
  function Upper(s: string): (r: string)
    ensures |s| <= |r| <= 2 * |s|
    decreases |s|
  {
    if |s| == 0 then "" else UpperOf(s[0]) + Upper(s[1..])
  }

  /** `s.startsWith(p)`. */
  predicate StartsWith(s: string, p: string)
  {
    |p| <= |s| && s[..|p|] == p
  }

  /** Whether a concatenation starts with `p` depends on `a` alone when `p`
      is no longer than `a`, and otherwise on `a` being a prefix of `p` and
      `b` starting with the rest. */
  lemma StartsWithConcat(a: string, b: string, p: string)
    ensures StartsWith(a + b, p)
        <==> if |p| <= |a| then StartsWith(a, p) else StartsWith(p, a) && StartsWith(b, p[|a|..])
  {
    if |p| > |a| && StartsWith(a + b, p) {
      assert p[..|a|] == (a + b)[..|a|];
      assert p[|a|..] == (a + b)[|a|..|p|];
    }
    if |p| > |a| && StartsWith(p, a) && StartsWith(b, p[|a|..]) {
      assert (a + b)[..|p|] == p[..|a|] + p[|a|..];
    }
    if |p| <= |a| {
      assert (a + b)[..|p|] == a[..|p|];
    }
  }

  /** `s.substring(0, n)`: the first `n` characters, or all of a shorter `s`. */
  function Take(s: string, n: nat): (r: string)
    ensures |r| == if |s| < n then |s| else n
    ensures StartsWith(s, r)
  {
    if |s| <= n then s else s[..n]
  }

  /** ASCII lower-casing, the case folding SQLite's LIKE applies. */
  function LowerAscii(c: char): char
  {
    if 'A' <= c <= 'Z' then (c as int + 32) as char else c
  }
}
