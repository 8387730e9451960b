/** String primitives shared by the Python and JavaScript parts of the console.
    Characters are Unicode scalars; whitespace and case are the ASCII subsets, which is
    what every pattern and separator in the modelled code uses. */
module Strings {

  /** Python's `str.isspace` / JavaScript's `\s`, restricted to ASCII. */
  predicate IsSpace(c: char) {
    c == ' ' || c == '\t' || c == '\n' || c == '\r' || c as int == 11 || c as int == 12
  }

  predicate IsAsciiUpper(c: char) { 'A' <= c <= 'Z' }
  predicate IsAsciiLower(c: char) { 'a' <= c <= 'z' }
  predicate IsAsciiDigit(c: char) { '0' <= c <= '9' }
  predicate IsAsciiAlnum(c: char) { IsAsciiUpper(c) || IsAsciiLower(c) || IsAsciiDigit(c) }

  function LowerChar(c: char): (r: char)
    ensures !IsAsciiUpper(r)
    ensures IsAsciiUpper(c) ==> r as int == c as int + 32
    ensures !IsAsciiUpper(c) ==> r == c
  {
    if IsAsciiUpper(c) then (c as int + 32) as char else c
  }

  /** `toLowerCase()` / `lower()` on the ASCII letters. */
  function Lower(s: string): (r: string)
    ensures |r| == |s|
    ensures forall i :: 0 <= i < |s| ==> r[i] == LowerChar(s[i])
  {
    if s == [] then [] else [LowerChar(s[0])] + Lower(s[1..])
  }

  predicate StartsWith(s: string, prefix: string) {
    |prefix| <= |s| && s[..|prefix|] == prefix
  }

  predicate EndsWith(s: string, suffix: string) {
    |suffix| <= |s| && s[|s| - |suffix|..] == suffix
  }

  /** `sub` occurs in `s` starting at position `i`. */
  predicate OccursAt(s: string, sub: string, i: int) {
    0 <= i && i + |sub| <= |s| && s[i..i + |sub|] == sub
  }

  /** `sub in s` / `s.includes(sub)`. */
  predicate Contains(s: string, sub: string) {
    exists i | 0 <= i <= |s| - |sub| :: OccursAt(s, sub, i)
  }

  /** A text that contains `a + b` contains `a`. */
  lemma ContainsPrefixOf(s: string, a: string, b: string)
    requires Contains(s, a + b)
    ensures Contains(s, a)
  {
    var i :| 0 <= i <= |s| - |a + b| && OccursAt(s, a + b, i);
    assert s[i..i + |a|] == (a + b)[..|a|];
    assert OccursAt(s, a, i);
  }

  /** JavaScript's `s.indexOf(sub)`: the first position of `sub`, or -1. */
  function IndexOf(s: string, sub: string): (r: int)
    ensures -1 <= r <= |s|
    ensures r == -1 <==> !Contains(s, sub)
    ensures r >= 0 ==> OccursAt(s, sub, r)
    ensures r >= 0 ==> forall j :: 0 <= j < r ==> !OccursAt(s, sub, j)
  {
    IndexFrom(s, sub, 0)
  }

  function IndexFrom(s: string, sub: string, from: nat): (r: int)
    requires from <= |s| + 1
    ensures -1 <= r <= |s|
    ensures r == -1 <==> forall i :: from <= i <= |s| - |sub| ==> !OccursAt(s, sub, i)
    ensures r >= 0 ==> from <= r && OccursAt(s, sub, r)
    ensures r >= 0 ==> forall j :: from <= j < r ==> !OccursAt(s, sub, j)
    decreases |s| + 1 - from
  {
    if from + |sub| > |s| then -1
    else if OccursAt(s, sub, from) then from
    else IndexFrom(s, sub, from + 1)
  }

  /** Position of the first occurrence of `c`. */
  function FirstIndex(s: string, c: char): (i: nat)
    requires c in s
    ensures i < |s| && s[i] == c && c !in s[..i]
  {
    if s[0] == c then 0 else FirstIndex(s[1..], c) + 1
  }

  lemma {:induction false} FirstIndexIs(s: string, c: char, j: nat)
    requires j < |s| && s[j] == c && c !in s[..j]
    ensures FirstIndex(s, c) == j
    decreases j
  {
    if j > 0 {
      assert s[0] in s[..j];
      assert s[1..][..j - 1] == s[1..j];
      assert s[1..j] == s[..j][1..];
      FirstIndexIs(s[1..], c, j - 1);
    }
  }

  /** The inverse of `Split`: `sep.join(parts)`. */
  function Join(parts: seq<string>, sep: string): string {
    if parts == [] then ""
    else if |parts| == 1 then parts[0]
    else parts[0] + sep + Join(parts[1..], sep)
  }

  /** Python's `s.split(sep)` / JavaScript's `s.split(sep)` for a one-character separator. */
  function Split(s: string, sep: char): (parts: seq<string>)
    ensures |parts| >= 1
    ensures forall k :: 0 <= k < |parts| ==> sep !in parts[k]
    ensures Join(parts, [sep]) == s
    decreases |s|
  {
    if sep !in s then [s]
    else
      var i := FirstIndex(s, sep);
      var rest := Split(s[i + 1..], sep);
      assert s == s[..i] + [sep] + s[i + 1..];
      [s[..i]] + rest
  }

  /** Splitting what `Join` produced gives back the parts. */
  lemma {:induction false} SplitJoin(parts: seq<string>, sep: char)
    requires |parts| >= 1
    requires forall k :: 0 <= k < |parts| ==> sep !in parts[k]
    ensures Split(Join(parts, [sep]), sep) == parts
    decreases |parts|
  {
    if |parts| == 1 {
    } else {
      var s := Join(parts, [sep]);
      var tail := Join(parts[1..], [sep]);
      assert s == parts[0] + [sep] + tail;
      assert sep in s by { assert s[|parts[0]|] == sep; }
      assert s[..|parts[0]|] == parts[0];
      FirstIndexIs(s, sep, |parts[0]|);
      var i := FirstIndex(s, sep);
      assert s[..i] == parts[0];
      assert s[i + 1..] == tail;
      SplitJoin(parts[1..], sep);
    }
  }

  /** The first position at or after `i` that is not whitespace. */
  function SkipSpaces(s: string, i: nat): (r: nat)
    requires i <= |s|
    ensures i <= r <= |s|
    ensures forall k :: i <= k < r ==> IsSpace(s[k])
    ensures r == |s| || !IsSpace(s[r])
    decreases |s| - i
  {
    if i < |s| && IsSpace(s[i]) then SkipSpaces(s, i + 1) else i
  }

  /** The position just after the last non-whitespace character of `s[lo..j]`, or `lo`. */
  function BackSpaces(s: string, lo: nat, j: nat): (r: nat)
    requires lo <= j <= |s|
    ensures lo <= r <= j
    ensures forall k :: r <= k < j ==> IsSpace(s[k])
    ensures r == lo || !IsSpace(s[r - 1])
    decreases j
  {
    if lo < j && IsSpace(s[j - 1]) then BackSpaces(s, lo, j - 1) else j
  }

  /** Python's `s.lstrip()` / JavaScript's `s.trimStart()`. */
  function TrimStart(s: string): (r: string)
    ensures |r| <= |s| && r == s[|s| - |r|..]
    ensures r == [] || !IsSpace(r[0])
    ensures forall i :: 0 <= i < |s| - |r| ==> IsSpace(s[i])
  {
    s[SkipSpaces(s, 0)..]
  }

  /** Python's `s.strip()` / JavaScript's `s.trim()`: the slice `s[i..j]` with every
      removed character whitespace and neither end of the result whitespace. */
  function Trim(s: string): (r: string)
    ensures exists i, j ::
              (0 <= i <= j <= |s| && r == s[i..j]
              && (forall k :: 0 <= k < i ==> IsSpace(s[k]))
              && (forall k :: j <= k < |s| ==> IsSpace(s[k])))
    ensures r == [] || (!IsSpace(r[0]) && !IsSpace(r[|r| - 1]))
  {
    var i := SkipSpaces(s, 0);
    var j := BackSpaces(s, i, |s|);
    assert forall k :: j <= k < |s| ==> IsSpace(s[k]);
    s[i..j]
  }

  /** Length of the leading run of non-whitespace characters. */
  function WordEnd(s: string): (n: nat)
    ensures n <= |s|
    ensures forall k :: 0 <= k < n ==> !IsSpace(s[k])
    ensures n == |s| || IsSpace(s[n])
  {
    if s == [] || IsSpace(s[0]) then 0 else 1 + WordEnd(s[1..])
  }

  lemma {:induction false} SkipSpacesShift(c: char, x: string, i: nat)
    requires i <= |x|
    ensures SkipSpaces([c] + x, i + 1) == SkipSpaces(x, i) + 1
    decreases |x| - i
  {
    var s := [c] + x;
    if i < |x| {
      assert s[i + 1] == x[i];
      if IsSpace(x[i]) {
        SkipSpacesShift(c, x, i + 1);
      }
    }
  }

  /** A leading whitespace character does not change the words. */
  lemma WordsSkipSpace(c: char, x: string)
    requires IsSpace(c)
    ensures Words([c] + x) == Words(x)
  {
    var s := [c] + x;
    SkipSpacesShift(c, x, 0);
    assert SkipSpaces(s, 0) == SkipSpaces(s, 1);
    assert s[SkipSpaces(x, 0) + 1..] == x[SkipSpaces(x, 0)..];
    assert TrimStart(s) == TrimStart(x);
  }

  /** A field: a non-empty run of non-whitespace characters. */
  predicate IsField(w: string) {
    w != [] && forall c :: c in w ==> !IsSpace(c)
  }

  /** Python's `s.split()` with no argument: the maximal runs of non-whitespace. */
  function Words(s: string): (ws: seq<string>)
    ensures forall k :: 0 <= k < |ws| ==> IsField(ws[k])
    decreases |s|
  {
    var t := TrimStart(s);
    if t == [] then []
    else
      var n := WordEnd(t);
      [t[..n]] + Words(t[n..])
  }

  /** `len(s.split())`, the word-count token estimate used for statistics. */
  function WordCount(s: string): nat {
    |Words(s)|
  }

  lemma WordsOfBlank(s: string)
    requires forall k :: 0 <= k < |s| ==> IsSpace(s[k])
    ensures Words(s) == []
  {
    assert TrimStart(s) == [];
  }

  /** Words are separated by whitespace: one space between two words adds their counts. */
  lemma {:induction false} WordsAppend(a: string, b: string)
    requires forall c :: c in a ==> !IsSpace(c)
    requires a != []
    ensures Words(a + " " + b) == [a] + Words(b)
  {
    var s := a + (" " + b);
    assert a + " " + b == s;
    assert a[0] in a;
    TrimStartOfWord(s);
    WordEndOfRun(a, " " + b);
    assert s[..|a|] == a && s[|a|..] == " " + b;
    WordsSkipSpace(' ', b);
  }

  lemma TrimStartOfWord(s: string)
    requires s != [] && !IsSpace(s[0])
    ensures TrimStart(s) == s
  {
  }

  lemma {:induction false} WordEndOfRun(a: string, rest: string)
    requires forall c :: c in a ==> !IsSpace(c)
    requires rest != [] && IsSpace(rest[0])
    ensures WordEnd(a + rest) == |a|
    decreases |a|
  {
    if a == [] {
      assert a + rest == rest;
    } else {
      assert (a + rest)[1..] == a[1..] + rest;
      assert a[0] in a;
      WordEndOfRun(a[1..], rest);
    }
  }

  /** Decimal rendering of a natural number (`str(n)` / `${n}`). */
  function NatToString(n: nat): (r: string)
    ensures r != []
    ensures forall k :: 0 <= k < |r| ==> IsAsciiDigit(r[k])
    decreases n
  {
    if n < 10 then [DigitChar(n)] else NatToString(n / 10) + [DigitChar(n % 10)]
  }

  /** The value of a run of decimal digits (`int(s)`). */
  function DigitsValue(s: string): nat
    requires forall k :: 0 <= k < |s| ==> IsAsciiDigit(s[k])
  {
    if s == [] then 0
    else
      assert IsAsciiDigit(s[|s| - 1]);
      DigitsValue(s[..|s| - 1]) * 10 + (s[|s| - 1] as int - '0' as int)
  }

  /** Reading back the decimal rendering gives the number. */
  lemma {:induction false} NatToStringValue(n: nat)
    ensures DigitsValue(NatToString(n)) == n
    decreases n
  {
    if n >= 10 {
      var r := NatToString(n);
      assert r[..|r| - 1] == NatToString(n / 10);
      NatToStringValue(n / 10);
    }
  }

  /** Decimal rendering of an integer, with a leading `-` when negative. */
  function IntToString(n: int): (r: string)
    ensures r != []
    ensures forall k :: 0 <= k < |r| ==> IsAsciiDigit(r[k]) || r[k] == '-'
  {
    if n < 0 then "-" + NatToString(-n) else NatToString(n)
  }

  function DigitChar(d: nat): (c: char)
    requires d < 10
    ensures IsAsciiDigit(c)
  {
    ('0' as int + d) as char
  }

  /** `"".join(parts)`. */
  function Concat(parts: seq<string>): (r: string)
    ensures parts == [] ==> r == ""
  {
    if parts == [] then "" else parts[0] + Concat(parts[1..])
  }

  lemma {:induction false} ConcatAppend(parts: seq<string>, last: string)
    ensures Concat(parts + [last]) == Concat(parts) + last
    decreases |parts|
  {
    if parts == [] {
      assert parts + [last] == [last];
    } else {
      assert (parts + [last])[1..] == parts[1..] + [last];
      ConcatAppend(parts[1..], last);
    }
  }

  /** What follows the first whitespace-separated field of `s`. */
  function AfterWord(s: string): string {
    var t := TrimStart(s);
    t[WordEnd(t)..]
  }

  /** The words after the first field are the remaining words. */
  lemma WordsOfAfterWord(s: string)
    requires Words(s) != []
    ensures Words(AfterWord(s)) == Words(s)[1..]
  {
  }

  /** `s` is empty or starts with whitespace. */
  predicate AtSpace(s: string) {
    s == [] || IsSpace(s[0])
  }

  /** What follows a field is empty or starts with whitespace. */
  lemma AfterWordAtSpace(s: string)
    ensures AtSpace(AfterWord(s))
  {
    var t := TrimStart(s);
    assert AfterWord(s) == [] || AfterWord(s)[0] == t[WordEnd(t)];
  }

  /** What follows the first `n` whitespace-separated fields of `s`. */
  function AfterFields(s: string, n: nat): string
    decreases n
  {
    if n == 0 then s else AfterFields(AfterWord(s), n - 1)
  }

  /** What follows the first `n` fields holds exactly the fields after them. */
  lemma {:induction false} AfterFieldsWords(s: string, n: nat)
    requires n <= |Words(s)|
    ensures Words(AfterFields(s, n)) == Words(s)[n..]
    decreases n
  {
    if n > 0 {
      WordsOfAfterWord(s);
      AfterFieldsWords(AfterWord(s), n - 1);
      assert Words(s)[n..] == Words(s)[1..][n - 1..];
    }
  }

  /** Skipping `n` fields skips `n - 1` of them, then one more. */
  lemma {:induction false} AfterFieldsLast(s: string, n: nat)
    requires n >= 1
    ensures AfterFields(s, n) == AfterWord(AfterFields(s, n - 1))
    decreases n
  {
    if n > 1 {
      AfterFieldsLast(AfterWord(s), n - 1);
    }
  }

  /** What follows a field starts with whitespace, or is empty. */
  lemma AfterFieldsAtSpace(s: string, n: nat)
    requires n >= 1
    ensures AtSpace(AfterFields(s, n))
  {
    AfterFieldsLast(s, n);
    AfterWordAtSpace(AfterFields(s, n - 1));
  }

  /** Dropping the separator in front of a text that starts with whitespace keeps its words. */
  lemma DropSeparator(s: string)
    requires AtSpace(s) && Words(s) != []
    ensures s != [] && Words(s[1..]) == Words(s)
  {
    assert s != [] by {
      if s == [] {
        WordsOfBlank(s);
      }
    }
    assert s == [s[0]] + s[1..];
    WordsSkipSpace(s[0], s[1..]);
  }

  /** Fields, each followed by one space, then more text. */
  function Spaced(fields: seq<string>, rest: string): string {
    if fields == [] then rest else fields[0] + " " + Spaced(fields[1..], rest)
  }

  /** The words of fields each followed by one space are those fields, then the words
      of what follows. */
  lemma {:induction false} SpacedWords(fields: seq<string>, rest: string)
    requires forall k :: 0 <= k < |fields| ==> IsField(fields[k])
    ensures Words(Spaced(fields, rest)) == fields + Words(rest)
    decreases |fields|
  {
    if fields != [] {
      var tail := Spaced(fields[1..], rest);
      assert Spaced(fields, rest) == fields[0] + " " + tail;
      SpacedWords(fields[1..], rest);
      WordsAppend(fields[0], tail);
      SeqAssoc([fields[0]], fields[1..], Words(rest));
      assert [fields[0]] + fields[1..] == fields;
    }
  }

  /** Fields followed by one space each, the first field first. */
  lemma SpacedCons(x: string, g: seq<string>, rest: string)
    ensures Spaced([x] + g, rest) == x + " " + Spaced(g, rest)
  {
    assert ([x] + g)[1..] == g;
  }

  /** Spacing two runs of fields: the first run (each field followed by a space), then
      the second. */
  lemma {:induction false} SpacedAppend(a: seq<string>, b: seq<string>, rest: string)
    ensures Spaced(a + b, rest) == Spaced(a, "") + Spaced(b, rest)
    decreases |a|
  {
    if a == [] {
      assert a + b == b;
    } else {
      SpacedAppend(a[1..], b, rest);
      assert a + b == [a[0]] + (a[1..] + b);
      SpacedCons(a[0], a[1..] + b, rest);
      SpacedCons(a[0], a[1..], "");
      assert a == [a[0]] + a[1..];
    }
  }

  /** Spaced fields end with their last separator. */
  lemma {:induction false} SpacedEndsInSpace(a: seq<string>)
    requires a != []
    ensures Spaced(a, "") != [] && IsSpace(Spaced(a, "")[|Spaced(a, "")| - 1])
    decreases |a|
  {
    if |a| > 1 {
      SpacedEndsInSpace(a[1..]);
    }
  }

  /** A field that does not occur in a text ending in whitespace first occurs in that text
      followed by the field, right after it. */
  lemma IndexOfAfter(p: string, w: string, rest: string)
    requires IsField(w) && !Contains(p, w)
    requires p == [] || IsSpace(p[|p| - 1])
    ensures IndexOf(p + (w + rest), w) == |p|
  {
    var s := p + (w + rest);
    assert s[|p|..|p| + |w|] == w;
    assert OccursAt(s, w, |p|);
    forall j | 0 <= j < |p| ensures !OccursAt(s, w, j) {
      if j + |w| <= |p| {
        assert s[j..j + |w|] == p[j..j + |w|];
        assert !OccursAt(p, w, j);
      } else {
        assert s[|p| - 1] == p[|p| - 1];
        assert s[j..j + |w|][|p| - 1 - j] == s[|p| - 1];
      }
    }
  }

  lemma SeqAssoc<T>(a: seq<T>, b: seq<T>, c: seq<T>)
    ensures a + (b + c) == (a + b) + c
  {
  }
}
