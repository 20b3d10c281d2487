/** The JavaScript string operations the server and the search box rely on:
    `toLowerCase` (restricted to ASCII), `trim` and `split` on one character. */
module Text {

  /** The code points `String.prototype.trim` removes: ECMAScript's WhiteSpace
      and LineTerminator characters. */
  predicate IsWhitespace(c: char)
  {
    || c == ' ' || c == '\t' || c == '\n' || c == '\r'
    || c == '\U{000B}' || c == '\U{000C}' || c == '\U{00A0}' || c == '\U{1680}'
    || ('\U{2000}' <= c && c <= '\U{200A}')
    || c == '\U{2028}' || c == '\U{2029}' || c == '\U{202F}' || c == '\U{205F}'
    || c == '\U{3000}' || c == '\U{FEFF}'
  }

  /** Every character is whitespace (the empty string included). */
  predicate Blank(s: string)
  {
    forall i :: 0 <= i < |s| ==> IsWhitespace(s[i])
  }

  /** Neither starts nor ends with whitespace. */
  predicate IsTrimmed(s: string)
  {
    s == [] || (!IsWhitespace(s[0]) && !IsWhitespace(s[|s| - 1]))
  }

  predicate IsUpper(c: char)
  {
    'A' <= c <= 'Z'
  }

  /** `toLowerCase` on one character, ASCII letters only. */
  function LowerChar(c: char): (d: char)
    ensures !IsUpper(d)
    ensures IsUpper(c) ==> d as int == c as int + 32
    ensures !IsUpper(c) ==> d == c
  {
    if IsUpper(c) then (c as int + 32) as char else c
  }

  /** `toLowerCase` on a string, ASCII letters only. */
  function Lower(s: string): (r: string)
    ensures |r| == |s|
    ensures forall i :: 0 <= i < |s| ==> r[i] == LowerChar(s[i])
  {
    if s == [] then [] else [LowerChar(s[0])] + Lower(s[1..])
  }

  /** Lowering twice is lowering once, so a key compared against
      `Lower(name)` may itself be lowered again without effect. */
  lemma LowerIdempotent(s: string)
    ensures Lower(Lower(s)) == Lower(s)
  {
    assert forall i :: 0 <= i < |s| ==> Lower(Lower(s))[i] == Lower(s)[i];
  }

  /** Lower-casing neither creates nor removes whitespace, so it keeps a
      string trimmed or untrimmed. */
  lemma LowerKeepsTrimmed(s: string)
    ensures IsTrimmed(Lower(s)) <==> IsTrimmed(s)
  {
    if s != [] {
      var r := Lower(s);
      assert r[0] == LowerChar(s[0]) && r[|r| - 1] == LowerChar(s[|s| - 1]);
    }
  }

  /** `trim`: drops whitespace from both ends until neither end is whitespace. */
  function Trim(s: string): (r: string)
    ensures IsTrimmed(r)
    ensures |r| <= |s|
    decreases |s|
  {
    if s != [] && IsWhitespace(s[0]) then Trim(s[1..])
    else if s != [] && IsWhitespace(s[|s| - 1]) then Trim(s[..|s| - 1])
    else s
  }

  /** A string trims to nothing exactly when it is all whitespace. */
  lemma {:induction false} TrimEmptyIffBlank(s: string)
    ensures Trim(s) == [] <==> Blank(s)
    decreases |s|
  {
    if s != [] && IsWhitespace(s[0]) {
      TrimEmptyIffBlank(s[1..]);
      assert Blank(s) <==> Blank(s[1..]) by {
        assert forall i :: 0 <= i < |s[1..]| ==> s[1..][i] == s[i + 1];
      }
    } else if s != [] && IsWhitespace(s[|s| - 1]) {
      TrimEmptyIffBlank(s[..|s| - 1]);
      assert !IsWhitespace(s[0]);
      assert Trim(s[..|s| - 1]) != [] by {
        assert !Blank(s[..|s| - 1]) by {
          assert s[..|s| - 1][0] == s[0];
        }
      }
    }
  }

  /** Trimming only removes characters. */
  lemma {:induction false} TrimKeepsChars(s: string, c: char)
    requires c in Trim(s)
    ensures c in s
    decreases |s|
  {
    if s != [] && IsWhitespace(s[0]) {
      TrimKeepsChars(s[1..], c);
    } else if s != [] && IsWhitespace(s[|s| - 1]) {
      TrimKeepsChars(s[..|s| - 1], c);
    }
  }

  /** A string that is already trimmed is its own trim. */
  lemma TrimOfTrimmed(s: string)
    requires IsTrimmed(s)
    ensures Trim(s) == s
  {
  }

  /** Blank padding alone trims to nothing. */
  lemma TrimBlankPair(pre: string, post: string)
    requires Blank(pre) && Blank(post)
    ensures Trim(pre + post) == []
  {
    var s := pre + post;
    assert Blank(s) by {
      assert forall i :: 0 <= i < |s| ==> s[i] == if i < |pre| then pre[i] else post[i - |pre|];
    }
    TrimEmptyIffBlank(s);
  }

  /** `trim` strips exactly the surrounding whitespace: any string made of
      blank padding around a trimmed core trims to that core. */
  lemma {:induction false} TrimCore(pre: string, core: string, post: string)
    requires Blank(pre) && Blank(post) && IsTrimmed(core)
    ensures Trim(pre + core + post) == core
    decreases |pre| + |post|
  {
    var s := pre + core + post;
    if core == [] {
      assert s == pre + post;
      TrimBlankPair(pre, post);
    } else if pre != [] {
      assert s[0] == pre[0];
      assert s[1..] == pre[1..] + core + post;
      assert Trim(s) == Trim(s[1..]);
      TrimCore(pre[1..], core, post);
    } else if post != [] {
      assert s == core + post;
      assert s[0] == core[0];
      assert s[|s| - 1] == post[|post| - 1];
      assert s[..|s| - 1] == pre + core + post[..|post| - 1];
      assert Trim(s) == Trim(s[..|s| - 1]);
      TrimCore(pre, core, post[..|post| - 1]);
    } else {
      assert s == core;
    }
  }

  /** Trimming is idempotent. */
  lemma TrimIdempotent(s: string)
    ensures Trim(Trim(s)) == Trim(s)
  {
    TrimOfTrimmed(Trim(s));
  }

  /** `split` on a single character: the maximal separator-free segments, so
      one more segment than there are separators. */
  function Split(s: string, sep: char): (parts: seq<string>)
    ensures |parts| >= 1
    ensures forall i :: 0 <= i < |parts| ==> sep !in parts[i]
  {
    if s == [] then
      [[]]
    else
      var rest := Split(s[1..], sep);
      if s[0] == sep then [[]] + rest else [[s[0]] + rest[0]] + rest[1..]
  }

  /** `join`: the parts with one separator between neighbours. */
  function Join(parts: seq<string>, sep: char): string
  {
    if parts == [] then []
    else if |parts| == 1 then parts[0]
    else parts[0] + [sep] + Join(parts[1..], sep)
  }

  /** Joining the segments of a split gives back the string. */
  lemma {:induction false} JoinSplit(s: string, sep: char)
    ensures Join(Split(s, sep), sep) == s
  {
    if s != [] {
      var rest := Split(s[1..], sep);
      JoinSplit(s[1..], sep);
      if s[0] == sep {
        assert ([[]] + rest)[1..] == rest;
      } else if |rest| > 1 {
        var parts := [[s[0]] + rest[0]] + rest[1..];
        assert parts[1..] == rest[1..];
        assert Join(rest, sep) == rest[0] + [sep] + Join(rest[1..], sep);
        assert s == [s[0]] + s[1..];
      } else {
        assert s == [s[0]] + s[1..];
      }
    }
  }

  /** A separator-free prefix followed by a separator becomes the first segment. */
  lemma {:induction false} SplitAtSeparator(a: string, sep: char, b: string)
    requires sep !in a
    ensures Split(a + [sep] + b, sep) == [a] + Split(b, sep)
  {
    if a == [] {
      assert a + [sep] + b == [sep] + b;
      assert ([sep] + b)[1..] == b;
    } else {
      assert (a + [sep] + b)[1..] == a[1..] + [sep] + b;
      SplitAtSeparator(a[1..], sep, b);
      assert [a[0]] + a[1..] == a;
    }
  }

  /** A string without the separator is a single segment. */
  lemma {:induction false} SplitWithoutSeparator(a: string, sep: char)
    requires sep !in a
    ensures Split(a, sep) == [a]
  {
    if a != [] {
      SplitWithoutSeparator(a[1..], sep);
      assert [a[0]] + a[1..] == a;
    }
  }

  /** Splitting the join of separator-free parts gives back the parts. */
  lemma {:induction false} SplitJoin(parts: seq<string>, sep: char)
    requires |parts| >= 1
    requires forall i :: 0 <= i < |parts| ==> sep !in parts[i]
    ensures Split(Join(parts, sep), sep) == parts
  {
    if |parts| == 1 {
      SplitWithoutSeparator(parts[0], sep);
    } else {
      SplitJoin(parts[1..], sep);
      SplitAtSeparator(parts[0], sep, Join(parts[1..], sep));
      assert [parts[0]] + parts[1..] == parts;
    }
  }
}
