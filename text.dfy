/** The few java.lang.String operations the attribute processors use, on strings as
    sequences of UTF-16 code units (Dafny's char). */
module JavaText {

  import opened Wrappers

  /** String.indexOf for one character: the first position of c in s, or -1. */
  function IndexOf(s: string, c: char): (r: int)
    ensures -1 <= r < |s|
    ensures r == -1 <==> c !in s
    ensures 0 <= r ==> s[r] == c && c !in s[..r]
  {
    if |s| == 0 then -1
    else if s[0] == c then 0
    else
      var k := IndexOf(s[1..], c);
      if k < 0 then -1
      else
        assert s[..k + 1] == [s[0]] + s[1..][..k];
        k + 1
  }

  /** String.lastIndexOf for one character: the last position of c in s, or -1. */
  function LastIndexOf(s: string, c: char): (r: int)
    ensures -1 <= r < |s|
    ensures r == -1 <==> c !in s
    ensures 0 <= r ==> s[r] == c && c !in s[r + 1..]
  {
    LastIndexBefore(s, c, |s|)
  }

  /** The last occurrence of c among the first n characters of s, or -1. */
  function LastIndexBefore(s: string, c: char, n: nat): (r: int)
    requires n <= |s|
    ensures -1 <= r < n
    ensures r == -1 <==> forall k :: 0 <= k < n ==> s[k] != c
    ensures 0 <= r ==> s[r] == c && forall k :: r < k < n ==> s[k] != c
  {
    if n == 0 then -1
    else if s[n - 1] == c then n - 1
    else LastIndexBefore(s, c, n - 1)
  }

  /** The first occurrence of c splits s into a c-free head and the rest. */
  lemma {:induction false} IndexOfConcat(head: string, c: char, tail: string)
    requires c !in head
    ensures IndexOf(head + [c] + tail, c) == |head|
  {
    var s := head + [c] + tail;
    assert s[..|head|] == head;
    assert s[|head|] == c;
  }

  /** Cutting head + [c] + tail at its first c gives back head and tail. */
  lemma CutAtFirst(head: string, c: char, tail: string)
    requires c !in head
    ensures IndexOf(head + [c] + tail, c) == |head|
    ensures (head + [c] + tail)[..|head|] == head && (head + [c] + tail)[|head| + 1..] == tail
  {
    IndexOfConcat(head, c, tail);
  }

  /** The last occurrence of c splits s into the rest and a c-free tail. */
  lemma {:induction false} LastIndexOfConcat(head: string, c: char, tail: string)
    requires c !in tail
    ensures LastIndexOf(head + [c] + tail, c) == |head|
  {
    var s := head + [c] + tail;
    assert s[|head| + 1..] == tail;
    assert s[|head|] == c;
  }

  // ---------------------------------------------------------------------------
  // String.trim: drops leading and trailing characters whose code is at most U+0020.

  predicate Blank(s: string)
  {
    forall k :: 0 <= k < |s| ==> s[k] <= ' '
  }

  /** A string String.trim leaves as it is. */
  predicate Trimmed(s: string)
  {
    s == [] || (s[0] > ' ' && s[|s| - 1] > ' ')
  }

  /** The index of the first character above U+0020 at or after from, or |s| when
      there is none. */
  function LeadingBlanks(s: string, from: nat): (i: nat)
    requires from <= |s|
    ensures from <= i <= |s|
    ensures forall k :: from <= k < i ==> s[k] <= ' '
    ensures i == |s| || s[i] > ' '
    decreases |s| - from
  {
    if from == |s| || s[from] > ' ' then from else LeadingBlanks(s, from + 1)
  }

  /** The end of s[lo..hi] once its trailing blanks are cut off. */
  function TrailingBlanks(s: string, lo: nat, hi: nat): (j: nat)
    requires lo <= hi <= |s|
    ensures lo <= j <= hi
    ensures forall k :: j <= k < hi ==> s[k] <= ' '
    ensures j == lo || s[j - 1] > ' '
    decreases hi
  {
    if hi == lo || s[hi - 1] > ' ' then hi else TrailingBlanks(s, lo, hi - 1)
  }

  /** Where the text that String.trim keeps begins. */
  function TrimOffset(s: string): (i: nat)
    ensures i <= |s|
  {
    LeadingBlanks(s, 0)
  }

  /** String.trim: the middle of s once the blank ends are cut off; what is cut off is blank
      and what is kept neither starts nor ends with a blank. */
  function Trim(s: string): (r: string)
    ensures Trimmed(r)
    ensures TrimOffset(s) + |r| <= |s|
    ensures r == s[TrimOffset(s)..TrimOffset(s) + |r|]
    ensures Blank(s[..TrimOffset(s)]) && Blank(s[TrimOffset(s) + |r|..])
  {
    var i := TrimOffset(s);
    var j := TrailingBlanks(s, i, |s|);
    assert Blank(s[..i]) by {
      forall k | 0 <= k < i ensures s[..i][k] <= ' ' { }
    }
    assert Blank(s[j..]) by {
      forall k | 0 <= k < |s| - j ensures s[j..][k] <= ' ' { assert s[j..][k] == s[j + k]; }
    }
    s[i..j]
  }

  /** Trimming adds no character. */
  lemma TrimKeepsOut(s: string, c: char)
    requires c !in s
    ensures c !in Trim(s)
  {
    var r := Trim(s);
    var i := TrimOffset(s);
    forall k | 0 <= k < |r| ensures r[k] != c {
      assert r[k] == s[i + k];
    }
  }

  /** Blanks in front of a character above U+0020 are where trimming starts. */
  lemma TrimOffsetAfterBlanks(a: string, s: string)
    requires Blank(a) && s != [] && s[0] > ' '
    ensures TrimOffset(a + s) == |a|
  {
    var t := a + s;
    var i := TrimOffset(t);
    assert t[|a|] == s[0];
  }

  /** Trimming a trimmed word padded with blanks gives back the word. */
  lemma TrimPadded(a: string, w: string, b: string)
    requires Blank(a) && Blank(b) && Trimmed(w)
    ensures Trim(a + w + b) == w
  {
    var t := a + w + b;
    var i := TrimOffset(t);
    var n := |a| + |w|;
    assert forall k :: n <= k < |t| ==> t[k] == b[k - n];
    if w != [] {
      assert t[..|a|] == a;
      TrimOffsetAfterBlanks(a, w + b);
      assert a + (w + b) == t;
      var j := TrailingBlanks(t, i, |t|);
      assert t[n - 1] == w[|w| - 1];
      assert t[i..n] == w;
    }
  }

  /** Trimming leaves a trimmed text as it is. */
  lemma TrimmedUnchanged(w: string)
    requires Trimmed(w)
    ensures Trim(w) == w
  {
    if w != [] {
      assert TrimOffset(w) == 0;
      assert TrailingBlanks(w, 0, |w|) == |w|;
    }
  }

  /** Trimming a trimmed text followed by blanks gives back the text. */
  lemma TrimPaddedRight(w: string, b: string)
    requires Trimmed(w) && Blank(b)
    ensures Trim(w + b) == w
  {
    TrimPadded([], w, b);
    assert [] + w + b == w + b;
  }

  // ---------------------------------------------------------------------------
  // Character classes.

  /** Character.isWhitespace: the ASCII controls it names and the Unicode space,
      line and paragraph separators other than the three no-break spaces. */
  predicate IsWhitespace(c: char)
  {
    || c == ' ' || c == '\t' || c == '\n' || c == '\U{B}' || c == '\U{C}' || c == '\r'
    || ('\U{1C}' <= c <= '\U{1F}')
    || c == '\U{1680}' || ('\U{2000}' <= c <= '\U{2006}') || ('\U{2008}' <= c <= '\U{200A}')
    || c == '\U{2028}' || c == '\U{2029}' || c == '\U{205F}' || c == '\U{3000}'
  }

  /** Thymeleaf's StringUtils.isEmptyOrWhitespace, with None for null. */
  predicate IsEmptyOrWhitespace(s: Option<string>)
  {
    s.None? || forall k :: 0 <= k < |s.value| ==> IsWhitespace(s.value[k])
  }

  /** An identifier-like word: ASCII letters, digits and underscores. */
  predicate IsWordChar(c: char)
  {
    ('a' <= c <= 'z') || ('A' <= c <= 'Z') || ('0' <= c <= '9') || c == '_'
  }

  predicate IsWord(s: string)
  {
    |s| > 0 && forall k :: 0 <= k < |s| ==> IsWordChar(s[k])
  }

  /** A word is never empty or whitespace: its first character is not a blank. */
  lemma WordNotBlank(w: string)
    requires IsWord(w)
    ensures !IsEmptyOrWhitespace(Some(w))
  {
    assert IsWordChar(w[0]);
  }

  lemma WordIsTrimmed(w: string)
    requires IsWord(w)
    ensures Trimmed(w)
    ensures '.' !in w && ',' !in w && ':' !in w && ' ' !in w
  {
    assert IsWordChar(w[0]) && IsWordChar(w[|w| - 1]);
  }

  // ---------------------------------------------------------------------------
  // Case-insensitive comparison on ASCII letters, which covers the literals the
  // processors compare against ("true", "all").

  function ToLowerAscii(c: char): (r: char)
    ensures ('A' <= c <= 'Z') ==> r as int == c as int + 32
    ensures !('A' <= c <= 'Z') ==> r == c
  {
    if 'A' <= c <= 'Z' then (c as int + 32) as char else c
  }

  predicate EqualsIgnoreCase(a: string, b: string)
  {
    |a| == |b| && forall k :: 0 <= k < |a| ==> ToLowerAscii(a[k]) == ToLowerAscii(b[k])
  }

  // ---------------------------------------------------------------------------
  // Decimal rendering of an index, as String.format("%d") produces it.

  function DigitChar(d: nat): (c: char)
    requires d < 10
    ensures '0' <= c <= '9'
  {
    ('0' as int + d) as char
  }

  function NatToString(n: nat): (r: string)
    ensures |r| >= 1
    ensures forall k :: 0 <= k < |r| ==> '0' <= r[k] <= '9'
    decreases n
  {
    if n < 10 then [DigitChar(n)] else NatToString(n / 10) + [DigitChar(n % 10)]
  }

  // ---------------------------------------------------------------------------
  // DBFlute's Srl.splitList with a one-character delimiter: every occurrence
  // separates two elements, empty elements included.

  function SplitList(s: string, d: char): (r: seq<string>)
    ensures |r| >= 1
    ensures forall k :: 0 <= k < |r| ==> d !in r[k]
  {
    if |s| == 0 then [""]
    else
      var rest := SplitList(s[1..], d);
      if s[0] == d then [""] + rest
      else [[s[0]] + rest[0]] + rest[1..]
  }

  /** Joining two strings with the delimiter concatenates their element lists. */
  lemma {:induction false} SplitListJoin(a: string, d: char, b: string)
    ensures SplitList(a + [d] + b, d) == SplitList(a, d) + SplitList(b, d)
  {
    if a == [] {
      assert a + [d] + b == [d] + b;
      assert ([d] + b)[1..] == b;
    } else {
      assert (a + [d] + b)[1..] == a[1..] + [d] + b;
      SplitListJoin(a[1..], d, b);
    }
  }

  /** A string without the delimiter is a single element. */
  lemma {:induction false} SplitListSingle(w: string, d: char)
    requires d !in w
    ensures SplitList(w, d) == [w]
  {
    if w != [] {
      assert d !in w[1..] by {
        forall k | 0 <= k < |w[1..]| ensures w[1..][k] != d { assert w[1..][k] == w[k + 1]; }
      }
      SplitListSingle(w[1..], d);
      assert [w[0]] + w[1..] == w;
    }
  }
}
