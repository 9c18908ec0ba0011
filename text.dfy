/**
 * ASCII models of the Python `str` operations the core relies on: `strip`, `lower`,
 * `title`, `startswith`, `split`, `replace`, `join`, `isdigit`, `isalnum`, `str(int)`
 * and `int(str)`. Only ASCII behaviour is modelled.
 */
module Text {
  import opened Common

  /** Python's `str.isspace` restricted to ASCII: space, \t \n \v \f \r and \x1c-\x1f. */
  predicate IsSpace(c: char) {
    c == ' ' || (9 <= c as int <= 13) || (28 <= c as int <= 31)
  }

  predicate IsDigit(c: char) { '0' <= c <= '9' }
  predicate IsUpper(c: char) { 'A' <= c <= 'Z' }
  predicate IsLowerLetter(c: char) { 'a' <= c <= 'z' }
  predicate IsLetter(c: char) { IsUpper(c) || IsLowerLetter(c) }
  predicate IsAlnum(c: char) { IsLetter(c) || IsDigit(c) }
  predicate IsHexDigit(c: char) { IsDigit(c) || ('a' <= c <= 'f') || ('A' <= c <= 'F') }

  /** Python's `s.isdigit()`: non-empty and every character a digit. */
  predicate AllDigits(s: string) {
    |s| > 0 && forall i :: 0 <= i < |s| ==> IsDigit(s[i])
  }

  function ToLowerChar(c: char): char {
    if IsUpper(c) then (c as int + 32) as char else c
  }

  function ToUpperChar(c: char): char {
    if IsLowerLetter(c) then (c as int - 32) as char else c
  }

  /** `s.lower()` */
  function Lower(s: string): (r: string)
    ensures |r| == |s|
    ensures forall i :: 0 <= i < |s| ==> r[i] == ToLowerChar(s[i])
  {
    if s == [] then [] else [ToLowerChar(s[0])] + Lower(s[1..])
  }

  lemma LowerIdempotent(s: string)
    ensures Lower(Lower(s)) == Lower(s)
  {
    assert forall i :: 0 <= i < |s| ==> ToLowerChar(ToLowerChar(s[i])) == ToLowerChar(s[i]);
  }

  predicate NoUpper(s: string) {
    forall i :: 0 <= i < |s| ==> !IsUpper(s[i])
  }

  lemma LowerOfNoUpper(s: string)
    requires NoUpper(s)
    ensures Lower(s) == s
  {
  }

  /** Drops the longest prefix whose characters satisfy `p`. */
  function DropLeft(s: string, p: char -> bool): (r: string)
    ensures |r| <= |s|
    ensures r == [] || !p(r[0])
    ensures forall i :: 0 <= i < |s| - |r| ==> p(s[i])
  {
    if s != [] && p(s[0]) then DropLeft(s[1..], p) else s
  }

  /** What `DropLeft` leaves is a suffix of its input. */
  lemma {:induction false} DropLeftIsSuffix(s: string, p: char -> bool)
    ensures DropLeft(s, p) == s[|s| - |DropLeft(s, p)|..]
    decreases |s|
  {
    if s != [] && p(s[0]) {
      DropLeftIsSuffix(s[1..], p);
      assert s[1..][|s| - 1 - |DropLeft(s[1..], p)|..] == s[|s| - |DropLeft(s, p)|..];
    }
  }

  /** Drops the longest suffix whose characters satisfy `p`. */
  function DropRight(s: string, p: char -> bool): (r: string)
    ensures |r| <= |s|
    ensures r == [] || !p(r[|r| - 1])
    ensures forall i :: |r| <= i < |s| ==> p(s[i])
  {
    if s != [] && p(s[|s| - 1]) then DropRight(s[..|s| - 1], p) else s
  }

  /** What `DropRight` leaves is a prefix of its input. */
  lemma {:induction false} DropRightIsPrefix(s: string, p: char -> bool)
    ensures DropRight(s, p) == s[..|DropRight(s, p)|]
    decreases |s|
  {
    if s != [] && p(s[|s| - 1]) {
      DropRightIsPrefix(s[..|s| - 1], p);
      assert s[..|s| - 1][..|DropRight(s, p)|] == s[..|DropRight(s, p)|];
    }
  }

  /** `s.strip()` */
  function Trim(s: string): string {
    DropRight(DropLeft(s, IsSpace), IsSpace)
  }

  /** `s.strip(c)` for a single character `c`. */
  function StripChar(s: string, c: char): string {
    DropRight(DropLeft(s, x => x == c), x => x == c)
  }

  /** A string that `strip()` leaves alone. */
  predicate IsTrimmed(s: string) {
    s == [] || (!IsSpace(s[0]) && !IsSpace(s[|s| - 1]))
  }

  lemma TrimIsTrimmed(s: string)
    ensures IsTrimmed(Trim(s))
    ensures |Trim(s)| <= |s|
  {
    var l := DropLeft(s, IsSpace);
    var r := DropRight(l, IsSpace);
    DropRightIsPrefix(l, IsSpace);
    if r != [] {
      assert r[0] == l[0];
    }
  }

  lemma TrimOfTrimmed(s: string)
    requires IsTrimmed(s)
    ensures Trim(s) == s
  {
  }

  /** `Trim(s)` is a contiguous slice of `s`. */
  lemma TrimIsSlice(s: string) returns (lo: nat, hi: nat)
    ensures lo <= hi <= |s| && Trim(s) == s[lo..hi]
  {
    var l := DropLeft(s, IsSpace);
    DropLeftIsSuffix(s, IsSpace);
    DropRightIsPrefix(l, IsSpace);
    lo := |s| - |l|;
    hi := lo + |DropRight(l, IsSpace)|;
    assert l[..hi - lo] == s[lo..hi];
  }

  lemma TrimIdempotent(s: string)
    ensures Trim(Trim(s)) == Trim(s)
  {
    TrimIsTrimmed(s);
    TrimOfTrimmed(Trim(s));
  }

  lemma TrimNoUpper(s: string)
    requires NoUpper(s)
    ensures NoUpper(Trim(s))
  {
    var lo, hi := TrimIsSlice(s);
    forall i | 0 <= i < |Trim(s)| ensures !IsUpper(Trim(s)[i]) {
      assert Trim(s)[i] == s[lo + i];
    }
  }

  function StartsWith(s: string, prefix: string): bool {
    |prefix| <= |s| && s[..|prefix|] == prefix
  }

  function EndsWith(s: string, suffix: string): bool {
    |suffix| <= |s| && s[|s| - |suffix|..] == suffix
  }

  /** Index of the first `c` in `s`, or `|s|` when there is none. */
  function IndexOf(s: string, c: char): (i: nat)
    ensures i <= |s|
    ensures i < |s| ==> s[i] == c
    ensures forall j :: 0 <= j < i ==> s[j] != c
  {
    if s == [] then 0 else if s[0] == c then 0 else 1 + IndexOf(s[1..], c)
  }

  /** Concatenation is associative. */
  lemma SeqAssoc(x: string, y: string, z: string)
    ensures x + y + z == x + (y + z)
  {
  }

  /** `s.split(sep)` for a one-character separator. */
  function Split(s: string, sep: char): (r: seq<string>)
    ensures |r| >= 1
    decreases |s|
  {
    var i := IndexOf(s, sep);
    if i == |s| then [s] else [s[..i]] + Split(s[i + 1..], sep)
  }

  /** The first field of a split is everything before the first separator. */
  lemma SplitFirst(s: string, sep: char)
    ensures Split(s, sep)[0] == s[..IndexOf(s, sep)]
    ensures sep !in Split(s, sep)[0]
  {
  }

  /** `s.split(sep, maxsplit)` for a one-character separator. */
  function SplitMax(s: string, sep: char, maxsplit: nat): (r: seq<string>)
    ensures 1 <= |r| <= maxsplit + 1
    decreases |s|
  {
    var i := IndexOf(s, sep);
    if i == |s| || maxsplit == 0 then [s] else [s[..i]] + SplitMax(s[i + 1..], sep, maxsplit - 1)
  }

  /** `sep.join(parts)` for a one-character separator. */
  function Join(parts: seq<string>, sep: char): string {
    if |parts| == 0 then ""
    else if |parts| == 1 then parts[0]
    else parts[0] + [sep] + Join(parts[1..], sep)
  }

  /** Splitting a joined list gives the list back when no part holds the separator. */
  lemma {:induction false} SplitJoin(parts: seq<string>, sep: char)
    requires |parts| >= 1
    requires forall k :: 0 <= k < |parts| ==> sep !in parts[k]
    ensures Split(Join(parts, sep), sep) == parts
  {
    if |parts| == 1 {
      assert IndexOf(parts[0], sep) == |parts[0]|;
    } else {
      var p := parts[0];
      var rest := Join(parts[1..], sep);
      var s := p + [sep] + rest;
      assert Join(parts, sep) == s;
      IndexOfSeparator(p, sep, rest);
      assert s[..|p|] == p;
      assert s[|p| + 1..] == rest;
      SplitJoin(parts[1..], sep);
      assert Split(s, sep) == [p] + Split(rest, sep);
      assert parts == [p] + parts[1..];
    }
  }

  /** The first separator of `p + [sep] + rest` is the one after `p` when `p` has none. */
  lemma IndexOfSeparator(p: string, sep: char, rest: string)
    requires sep !in p
    ensures IndexOf(p + [sep] + rest, sep) == |p|
  {
    var s := p + [sep] + rest;
    forall j | 0 <= j < |p| ensures s[j] != sep {
      assert s[j] == p[j];
    }
    IndexOfFirst(s, sep, |p|);
  }

  lemma IndexOfFirst(s: string, c: char, k: nat)
    requires k < |s| && s[k] == c
    requires forall j :: 0 <= j < k ==> s[j] != c
    ensures IndexOf(s, c) == k
  {
  }

  /** `s.replace(old, new)` for a non-empty `old`: matches are replaced left to right. */
  function Replace(s: string, pat: string, rep: string): string
    requires |pat| > 0
    decreases |s|
  {
    if |s| < |pat| then s
    else if s[..|pat|] == pat then rep + Replace(s[|pat|..], pat, rep)
    else [s[0]] + Replace(s[1..], pat, rep)
  }

  /** `s.replace(c, d)` for single characters rewrites each `c` and keeps everything else. */
  lemma {:induction false} ReplaceChar(s: string, c: char, d: char)
    ensures |Replace(s, [c], [d])| == |s|
    ensures forall i :: 0 <= i < |s| ==> Replace(s, [c], [d])[i] == if s[i] == c then d else s[i]
    decreases |s|
  {
    if |s| >= 1 {
      ReplaceChar(s[1..], c, d);
      var r := Replace(s, [c], [d]);
      var x := if s[0] == c then d else s[0];
      assert s[..1] == [c] <==> s[0] == c;
      assert r == [x] + Replace(s[1..], [c], [d]);
    }
  }

  /** Index at which `pat` first occurs in `s`, or `|s|` when it does not occur. */
  function Find(s: string, pat: string): (i: nat)
    requires |pat| > 0
    ensures i <= |s|
    ensures i < |s| ==> i + |pat| <= |s| && s[i..i + |pat|] == pat
    decreases |s|
  {
    if |s| < |pat| then |s|
    else if s[..|pat|] == pat then 0
    else 1 + Find(s[1..], pat)
  }

  /** Python's `pat in s`. */
  predicate Contains(s: string, pat: string)
    requires |pat| > 0
  {
    Find(s, pat) < |s|
  }

  /** `s.split(pat)[1]` when `pat in s`: the text between the first and the second occurrence. */
  function SecondField(s: string, pat: string): string
    requires |pat| > 0
    requires Contains(s, pat)
  {
    var rest := s[Find(s, pat) + |pat|..];
    rest[..Find(rest, pat)]
  }

  /** Python's `s[:n]`. */
  function Prefix(s: string, n: nat): (r: string)
    ensures |r| == if |s| <= n then |s| else n
  {
    if |s| <= n then s else s[..n]
  }

  /** `s.title()` in ASCII: a letter is upper-cased after a non-letter and lower-cased after a letter. */
  function Title(s: string): string {
    TitleFrom(s, false)
  }

  function TitleFrom(s: string, afterLetter: bool): (r: string)
    ensures |r| == |s|
  {
    if s == [] then []
    else
      var c := s[0];
      var c' := if !IsLetter(c) then c else if afterLetter then ToLowerChar(c) else ToUpperChar(c);
      [c'] + TitleFrom(s[1..], IsLetter(c))
  }

  /** Title-casing leaves every non-letter where it was and turns letters into letters. */
  lemma {:induction false} TitleKeepsNonLetters(s: string, afterLetter: bool)
    ensures forall i :: 0 <= i < |s| ==>
      if IsLetter(s[i]) then IsLetter(TitleFrom(s, afterLetter)[i]) else TitleFrom(s, afterLetter)[i] == s[i]
    decreases |s|
  {
    if s != [] {
      TitleKeepsNonLetters(s[1..], IsLetter(s[0]));
      var r := TitleFrom(s, afterLetter);
      assert forall i :: 1 <= i < |s| ==> r[i] == TitleFrom(s[1..], IsLetter(s[0]))[i - 1] && s[i] == s[1..][i - 1];
    }
  }

  /** The first part of a join is a prefix of it. */
  lemma JoinPrefix(parts: seq<string>, sep: char)
    requires |parts| >= 1
    ensures StartsWith(Join(parts, sep), parts[0])
  {
    if |parts| > 1 {
      assert (parts[0] + [sep] + Join(parts[1..], sep))[..|parts[0]|] == parts[0];
    }
  }

  function DigitChar(d: nat): char
    requires d < 10
  {
    ('0' as int + d) as char
  }

  function DigitValue(c: char): nat
    requires IsDigit(c)
  {
    c as int - '0' as int
  }

  /** `str(n)` for a natural number. */
  function NatToString(n: nat): (r: string)
    ensures AllDigits(r)
    decreases n
  {
    if n < 10 then [DigitChar(n)] else NatToString(n / 10) + [DigitChar(n % 10)]
  }

  /** `str(i)` for an integer. */
  function IntToString(i: int): string {
    if i < 0 then "-" + NatToString(-i) else NatToString(i)
  }

  /** Decimal value of a string of digits. */
  function DigitsValue(s: string): nat
    requires forall k :: 0 <= k < |s| ==> IsDigit(s[k])
  {
    if s == [] then 0 else DigitsValue(s[..|s| - 1]) * 10 + DigitValue(s[|s| - 1])
  }

  lemma {:induction false} DigitsValueOfNatToString(n: nat)
    ensures DigitsValue(NatToString(n)) == n
    decreases n
  {
    var s := NatToString(n);
    if n >= 10 {
      DigitsValueOfNatToString(n / 10);
      assert s[..|s| - 1] == NatToString(n / 10);
    }
  }

  /** Digits with single underscores between them, as Python's `int()` accepts ("1_000"). */
  predicate IsDigitGroup(s: string) {
    && |s| > 0
    && IsDigit(s[0]) && IsDigit(s[|s| - 1])
    && (forall k :: 0 <= k < |s| ==> IsDigit(s[k]) || s[k] == '_')
    && (forall k :: 0 <= k < |s| - 1 ==> !(s[k] == '_' && s[k + 1] == '_'))
  }

  function RemoveUnderscores(s: string): (r: string)
    requires forall k :: 0 <= k < |s| ==> IsDigit(s[k]) || s[k] == '_'
    ensures forall k :: 0 <= k < |r| ==> IsDigit(r[k])
  {
    if s == [] then [] else (if s[0] == '_' then [] else [s[0]]) + RemoveUnderscores(s[1..])
  }

  lemma RemoveUnderscoresOfDigits(s: string)
    requires forall k :: 0 <= k < |s| ==> IsDigit(s[k])
    ensures RemoveUnderscores(s) == s
  {
  }

  /**
   * Python's `int(s)` on ASCII input: surrounding whitespace is ignored, an optional sign,
   * then a digit group. Anything else raises ValueError, modelled as `None`.
   */
  function ParseInt(s: string): Option<int> {
    ParseSigned(Trim(s))
  }

  /** `int(t)` for a string without surrounding whitespace. */
  function ParseSigned(t: string): Option<int> {
    if |t| > 0 && (t[0] == '-' || t[0] == '+') then
      match ParseUnsigned(t[1..])
      case None => None
      case Some(v) => Some(if t[0] == '-' then -v else v)
    else ParseUnsigned(t)
  }

  /** The value of a digit group, or `None` when `s` is not one. */
  function ParseUnsigned(s: string): (r: Option<int>)
    ensures r.Some? <==> IsDigitGroup(s)
    ensures r.Some? ==> r.value >= 0
  {
    if IsDigitGroup(s) then Some(DigitsValue(RemoveUnderscores(s))) else None
  }

  lemma DigitsAreGroup(d: string)
    requires AllDigits(d)
    ensures IsDigitGroup(d)
  {
  }

  lemma ParseUnsignedOfNat(n: nat)
    ensures ParseUnsigned(NatToString(n)) == Some(n)
  {
    var d := NatToString(n);
    DigitsValueOfNatToString(n);
    RemoveUnderscoresOfDigits(d);
    DigitsAreGroup(d);
  }

  lemma ParseIntOfNat(n: nat)
    ensures ParseInt(NatToString(n)) == Some(n)
  {
    var d := NatToString(n);
    ParseUnsignedOfNat(n);
    assert IsTrimmed(d);
    TrimOfTrimmed(d);
  }

  lemma ParseIntOfNegative(n: nat)
    requires n > 0
    ensures ParseInt("-" + NatToString(n)) == Some(-(n as int))
  {
    var d := NatToString(n);
    var s := "-" + d;
    ParseUnsignedOfNat(n);
    assert s[1..] == d;
    assert !IsSpace(s[|s| - 1]) by {
      assert s[|s| - 1] == d[|d| - 1];
    }
    TrimOfTrimmed(s);
    assert ParseSigned(s) == Some(-(n as int));
  }

  /** `int(str(i)) == i`. */
  lemma ParseIntOfIntToString(i: int)
    ensures ParseInt(IntToString(i)) == Some(i)
  {
    if i < 0 {
      ParseIntOfNegative(-i);
    } else {
      ParseIntOfNat(i);
    }
  }

  lemma IntToStringShape(i: int)
    ensures |IntToString(i)| > 0
    ensures ' ' !in IntToString(i) && '\n' !in IntToString(i)
    ensures IsDigit(IntToString(i)[0]) || (IntToString(i)[0] == '-' && |IntToString(i)| > 1 && IsDigit(IntToString(i)[1]))
    ensures IsDigit(IntToString(i)[|IntToString(i)| - 1])
  {
    var n: nat := if i < 0 then -i else i;
    var d := NatToString(n);
    if i < 0 {
      assert IntToString(i) == "-" + d;
    }
  }

  /** Python's `<` on `str`: lexicographic by code point, a proper prefix first. */
  predicate Less(a: string, b: string) {
    if |a| == 0 then |b| > 0
    else if |b| == 0 then false
    else if a[0] != b[0] then a[0] < b[0]
    else Less(a[1..], b[1..])
  }

  lemma {:induction false} LessIrreflexive(a: string)
    ensures !Less(a, a)
  {
    if |a| > 0 {
      LessIrreflexive(a[1..]);
    }
  }

  lemma {:induction false} LessAsymmetric(a: string, b: string)
    requires Less(a, b)
    ensures !Less(b, a)
  {
    if |a| > 0 && |b| > 0 && a[0] == b[0] {
      LessAsymmetric(a[1..], b[1..]);
    }
  }

  lemma {:induction false} LessTransitive(a: string, b: string, c: string)
    requires Less(a, b) && Less(b, c)
    ensures Less(a, c)
  {
    if |a| > 0 && |b| > 0 && |c| > 0 && a[0] == b[0] && b[0] == c[0] {
      LessTransitive(a[1..], b[1..], c[1..]);
    }
  }

  /** Two different strings are ordered one way or the other. */
  lemma {:induction false} LessTotal(a: string, b: string)
    requires a != b
    ensures Less(a, b) || Less(b, a)
  {
    if |a| > 0 && |b| > 0 && a[0] == b[0] {
      assert a == [a[0]] + a[1..] && b == [b[0]] + b[1..];
      LessTotal(a[1..], b[1..]);
    }
  }

  /** Trailing characters are dropped from the second half only, as long as it is not all dropped or the first half ends well. */
  lemma {:induction false} DropRightAppend(a: string, b: string, p: char -> bool)
    requires (exists i :: 0 <= i < |b| && !p(b[i])) || (|a| > 0 && !p(a[|a| - 1]))
    ensures DropRight(a + b, p) == a + DropRight(b, p)
    decreases |b|
  {
    if |b| == 0 {
      assert a + b == a;
      assert DropRight(a, p) == a;
    } else if p(b[|b| - 1]) {
      var b' := b[..|b| - 1];
      assert (a + b)[..|a + b| - 1] == a + b';
      if exists i :: 0 <= i < |b| && !p(b[i]) {
        var i :| 0 <= i < |b| && !p(b[i]);
        assert i < |b'| && b'[i] == b[i];
      }
      DropRightAppend(a, b', p);
    } else {
      assert (a + b)[|a + b| - 1] == b[|b| - 1];
    }
  }

  /** `strip()` of a string that starts with a kept prefix only trims its tail. */
  lemma TrimSolidPrefix(a: string, b: string)
    requires |a| > 0 && !IsSpace(a[0]) && !IsSpace(a[|a| - 1])
    ensures Trim(a + b) == a + DropRight(b, IsSpace)
  {
    assert (a + b)[0] == a[0];
    assert DropLeft(a + b, IsSpace) == a + b;
    DropRightAppend(a, b, IsSpace);
  }

  lemma DropRightIdempotent(s: string, p: char -> bool)
    ensures DropRight(DropRight(s, p), p) == DropRight(s, p)
  {
  }

  /** A line that starts with a kept character: `s.rstrip().strip() == s.strip() == s.rstrip()`. */
  lemma TrimDropRight(s: string)
    requires |s| > 0 && !IsSpace(s[0])
    ensures Trim(s) == DropRight(s, IsSpace)
    ensures Trim(DropRight(s, IsSpace)) == Trim(s)
  {
    var r := DropRight(s, IsSpace);
    DropRightIsPrefix(s, IsSpace);
    assert |r| > 0 && r[0] == s[0];
    assert DropLeft(r, IsSpace) == r;
    DropRightIdempotent(s, IsSpace);
  }

  /** Joining one more part appends the separator and the part. */
  lemma {:induction false} JoinSnoc(parts: seq<string>, last: string, sep: char)
    requires |parts| >= 1
    ensures Join(parts + [last], sep) == Join(parts, sep) + [sep] + last
  {
    if |parts| == 1 {
      assert (parts + [last])[1..] == [last];
    } else {
      assert (parts + [last])[1..] == parts[1..] + [last];
      JoinSnoc(parts[1..], last, sep);
    }
  }

  lemma {:induction false} JoinStart(parts: seq<string>, sep: char)
    requires |parts| >= 1 && |parts[0]| > 0
    ensures |Join(parts, sep)| > 0 && Join(parts, sep)[0] == parts[0][0]
  {
  }

  /**
   * `"\n".join(lines).strip().split("\n")` gives the lines back, with only the last one
   * stripped at its end, when every line starts with a character `strip()` keeps.
   */
  lemma {:induction false} SplitTrimJoin(lines: seq<string>)
    requires |lines| >= 1
    requires forall k :: 0 <= k < |lines| ==> '\n' !in lines[k] && |lines[k]| > 0 && !IsSpace(lines[k][0])
    ensures Split(Trim(Join(lines, '\n')), '\n') ==
      lines[..|lines| - 1] + [DropRight(lines[|lines| - 1], IsSpace)]
  {
    var n := |lines|;
    var last := lines[n - 1];
    var last' := DropRight(last, IsSpace);
    JoinStart(lines, '\n');
    var j := Join(lines, '\n');
    assert DropLeft(j, IsSpace) == j;
    if n == 1 {
      assert lines[..0] + [last'] == [last'];
      assert Trim(j) == last';
      DropRightIsPrefix(last, IsSpace);
      SplitJoin([last'], '\n');
    } else {
      var init := lines[..n - 1];
      assert lines == init + [last];
      var head := Join(init, '\n') + ['\n'];
      assert j == head + last by {
        JoinSnoc(init, last, '\n');
      }
      assert Trim(j) == head + last' by {
        assert !IsSpace(last[0]);
        DropRightAppend(head, last, IsSpace);
      }
      assert Join(init + [last'], '\n') == head + last' by {
        JoinSnoc(init, last', '\n');
      }
      assert '\n' !in last' by {
        DropRightIsPrefix(last, IsSpace);
      }
      assert forall k :: 0 <= k < |init + [last']| ==> '\n' !in (init + [last'])[k] by {
        forall k | 0 <= k < |init + [last']| ensures '\n' !in (init + [last'])[k] {
          if k < |init| {
            assert (init + [last'])[k] == lines[k];
          }
        }
      }
      SplitJoin(init + [last'], '\n');
    }
  }

  /** Line by line, `"\n".join(lines).strip().split("\n")` strips to what the lines strip to. */
  lemma SplitTrimJoinTrims(lines: seq<string>)
    requires |lines| >= 1
    requires forall k :: 0 <= k < |lines| ==> '\n' !in lines[k] && |lines[k]| > 0 && !IsSpace(lines[k][0])
    ensures var read := Split(Trim(Join(lines, '\n')), '\n');
      |read| == |lines| && forall k :: 0 <= k < |lines| ==> Trim(read[k]) == Trim(lines[k])
  {
    var n := |lines|;
    var read := lines[..n - 1] + [DropRight(lines[n - 1], IsSpace)];
    assert Split(Trim(Join(lines, '\n')), '\n') == read by {
      SplitTrimJoin(lines);
    }
    forall k | 0 <= k < n ensures Trim(read[k]) == Trim(lines[k]) {
      if k == n - 1 {
        TrimDropRight(lines[k]);
      } else {
        assert read[k] == lines[k];
      }
    }
  }

  /** A string starts with any of its prefixes. */
  lemma StartsWithConcat(a: string, b: string)
    ensures StartsWith(a + b, a)
  {
    assert (a + b)[..|a|] == a;
  }

  /** A string that begins and ends with kept characters is left alone by `strip()`. */
  lemma TrimConcatKept(a: string, b: string)
    requires |a| > 0 && !IsSpace(a[0]) && |b| > 0 && !IsSpace(b[|b| - 1])
    ensures Trim(a + b) == a + b
  {
    assert (a + b)[0] == a[0] && (a + b)[|a + b| - 1] == b[|b| - 1];
    TrimOfTrimmed(a + b);
  }

  /** `(a + " " + b).split(" ", 1)` for a first field `a` without spaces. */
  lemma SplitOnceAtSpace(a: string, b: string)
    requires ' ' !in a
    ensures SplitMax(a + " " + b, ' ', 1) == [a, b]
  {
    var line := a + " " + b;
    assert line[|a|] == ' ';
    forall j | 0 <= j < |a| ensures line[j] != ' ' {
      assert line[j] == a[j];
    }
    IndexOfFirst(line, ' ', |a|);
    assert line[..|a|] == a && line[|a| + 1..] == b;
    assert SplitMax(b, ' ', 0) == [b];
  }
}
