/** String primitives with the semantics of the JavaScript built-ins the
    parser relies on: `trim`, `includes`, `split(':')`, `split(/\s+/)`,
    `replace('%', '')` and ASCII-only case mapping. Strings are `seq<char>`. */
module Text {
  /** JavaScript's white space and line terminators: the set matched by `\s`
      and removed by `String.prototype.trim`. */
  predicate IsSpace(c: char) {
    || c == '\t' || c == '\n' || c == '\U{000B}' || c == '\U{000C}' || c == '\r' || c == ' '
    || c == '\U{00A0}' || c == '\U{1680}' || ('\U{2000}' <= c <= '\U{200A}')
    || c == '\U{2028}' || c == '\U{2029}' || c == '\U{202F}' || c == '\U{205F}'
    || c == '\U{3000}' || c == '\U{FEFF}'
  }

  predicate NotSpace(c: char) { !IsSpace(c) }

  predicate IsDigit(c: char) { '0' <= c <= '9' }

  predicate IsAsciiAlnum(c: char) { IsDigit(c) || 'a' <= c <= 'z' || 'A' <= c <= 'Z' }

  predicate IsDigits(s: string) { forall i :: 0 <= i < |s| ==> IsDigit(s[i]) }

  predicate NoSpace(s: string) { forall i :: 0 <= i < |s| ==> !IsSpace(s[i]) }

  /** No white space at either end. */
  predicate IsTrimmed(s: string) { |s| == 0 || (!IsSpace(s[0]) && !IsSpace(s[|s| - 1])) }

  /** End of the longest run of characters satisfying `p` that starts at `i`. */
  function RunEnd(s: string, i: nat, p: char -> bool): (e: nat)
    requires i <= |s|
    ensures i <= e <= |s|
    ensures forall k :: i <= k < e ==> p(s[k])
    ensures e == |s| || !p(s[e])
    decreases |s| - i
  {
    if i == |s| || !p(s[i]) then i else RunEnd(s, i + 1, p)
  }

  /** A run of `p` characters from `i` that stops at `e` ends at `e`. */
  lemma {:induction false} RunEndExact(s: string, i: nat, e: nat, p: char -> bool)
    requires i <= e <= |s|
    requires forall k :: i <= k < e ==> p(s[k])
    requires e == |s| || !p(s[e])
    ensures RunEnd(s, i, p) == e
    decreases e - i
  {
    if i < e {
      RunEndExact(s, i + 1, e, p);
    }
  }

  /** Index of the first `c` in `s`, or `|s|` when there is none. */
  function IndexOf(s: string, c: char): (i: nat)
    ensures i <= |s|
    ensures i < |s| ==> s[i] == c
    ensures forall k :: 0 <= k < i ==> s[k] != c
    ensures i == |s| <==> c !in s
  {
    RunEnd(s, 0, x => x != c)
  }

  // ---------------------------------------------------------------- trim

  function TrimStart(s: string): (r: string)
    ensures |r| <= |s| && r == s[|s| - |r|..]
    ensures forall i :: 0 <= i < |s| - |r| ==> IsSpace(s[i])
    ensures |r| == 0 || !IsSpace(r[0])
    decreases |s|
  {
    if |s| > 0 && IsSpace(s[0]) then TrimStart(s[1..]) else s
  }

  function TrimEnd(s: string): (r: string)
    ensures |r| <= |s| && r == s[..|r|]
    ensures forall i :: |r| <= i < |s| ==> IsSpace(s[i])
    ensures |r| == 0 || !IsSpace(r[|r| - 1])
    decreases |s|
  {
    if |s| > 0 && IsSpace(s[|s| - 1]) then TrimEnd(s[..|s| - 1]) else s
  }

  /** `String.prototype.trim`: the infix of `s` left after removing the white
      space at both ends. */
  function Trim(s: string): (r: string)
    ensures IsTrimmed(r)
    ensures var a := |s| - |TrimStart(s)|; a + |r| <= |s| && r == s[a..a + |r|]
  {
    var t := TrimStart(s);
    TrimEndKeepsStart(t);
    InfixOfSuffix(s, |s| - |t|, |TrimEnd(t)|);
    TrimEnd(t)
  }

  lemma TrimEndKeepsStart(t: string)
    requires |t| == 0 || !IsSpace(t[0])
    ensures IsTrimmed(TrimEnd(t))
  {
    var r := TrimEnd(t);
    assert |r| > 0 ==> r[0] == t[0];
  }

  lemma InfixOfSuffix(s: string, a: nat, n: nat)
    requires a + n <= |s|
    ensures s[a..][..n] == s[a..a + n]
  {
  }

  /** What `Trim` removes is white space only. */
  lemma TrimRemovesOnlySpace(s: string)
    ensures var a, r := |s| - |TrimStart(s)|, Trim(s);
            && (forall i :: 0 <= i < a ==> IsSpace(s[i]))
            && (forall i :: a + |r| <= i < |s| ==> IsSpace(s[i]))
  {
    var t := TrimStart(s);
    var r := Trim(s);
    var a := |s| - |t|;
    SpaceAfterTrimEnd(s, a, t);
  }

  lemma SpaceAfterTrimEnd(s: string, a: nat, t: string)
    requires a <= |s| && t == s[a..]
    ensures forall i :: a + |TrimEnd(t)| <= i < |s| ==> IsSpace(s[i])
  {
    forall i | a + |TrimEnd(t)| <= i < |s| ensures IsSpace(s[i]) {
      assert s[i] == t[i - a];
    }
  }

  /** Trimming a string without white space at its ends changes nothing, so
      trimming is idempotent. */
  lemma TrimmedIsFixpoint(s: string)
    requires IsTrimmed(s)
    ensures Trim(s) == s
  {
  }

  lemma TrimIdempotent(s: string)
    ensures Trim(Trim(s)) == Trim(s)
  {
    TrimmedIsFixpoint(Trim(s));
  }

  // ------------------------------------------------------------- includes

  predicate OccursAt(needle: string, hay: string, i: int) {
    0 <= i && i + |needle| <= |hay| && hay[i..i + |needle|] == needle
  }

  /** `needle` is an infix of `hay`. */
  ghost predicate Occurs(needle: string, hay: string) {
    exists i :: OccursAt(needle, hay, i)
  }

  /** `String.prototype.includes`. */
  function Contains(hay: string, needle: string): (b: bool)
    ensures b <==> Occurs(needle, hay)
    decreases |hay|
  {
    if |needle| > |hay| then false
    else if hay[..|needle|] == needle then
      assert OccursAt(needle, hay, 0);
      true
    else
      OccursShift(needle, hay);
      Contains(hay[1..], needle)
  }

  /** An occurrence not at position 0 is an occurrence in the tail. */
  lemma OccursShift(needle: string, hay: string)
    requires |needle| <= |hay| && hay[..|needle|] != needle
    ensures Occurs(needle, hay) <==> Occurs(needle, hay[1..])
  {
    if Occurs(needle, hay) {
      var i :| OccursAt(needle, hay, i);
      assert i != 0;
      assert hay[1..][i - 1..i - 1 + |needle|] == hay[i..i + |needle|];
      assert OccursAt(needle, hay[1..], i - 1);
    }
    if Occurs(needle, hay[1..]) {
      var i :| OccursAt(needle, hay[1..], i);
      assert hay[i + 1..i + 1 + |needle|] == hay[1..][i..i + |needle|];
      assert OccursAt(needle, hay, i + 1);
    }
  }

  // ------------------------------------------------------------ split(':')

  /** Joins parts with one separator between neighbours (`Array.prototype.join`). */
  function Join(parts: seq<string>, sep: char): string
    decreases |parts|
  {
    if |parts| == 0 then ""
    else if |parts| == 1 then parts[0]
    else parts[0] + [sep] + Join(parts[1..], sep)
  }

  /** `String.prototype.split` with a one-character separator: the maximal
      separator-free pieces, including empty ones. */
  function Split(s: string, sep: char): (parts: seq<string>)
    ensures |parts| >= 1
    ensures forall i :: 0 <= i < |parts| ==> sep !in parts[i]
    ensures Join(parts, sep) == s
    ensures sep in s ==> |parts| >= 2
    decreases |s|
  {
    var i := IndexOf(s, sep);
    if i == |s| then [s]
    else
      var rest := Split(s[i + 1..], sep);
      assert s == s[..i] + [sep] + s[i + 1..];
      [s[..i]] + rest
  }

  /** Splitting undoes joining separator-free parts. */
  lemma {:induction false} SplitJoin(parts: seq<string>, sep: char)
    requires |parts| >= 1
    requires forall i :: 0 <= i < |parts| ==> sep !in parts[i]
    ensures Split(Join(parts, sep), sep) == parts
    decreases |parts|
  {
    var s := Join(parts, sep);
    if |parts| == 1 {
      assert IndexOf(s, sep) == |s|;
    } else {
      var tail := Join(parts[1..], sep);
      assert s == parts[0] + [sep] + tail;
      assert s[|parts[0]|] == sep;
      assert forall k :: 0 <= k < |parts[0]| ==> s[k] == parts[0][k];
      assert IndexOf(s, sep) == |parts[0]|;
      assert s[..|parts[0]|] == parts[0];
      assert s[|parts[0]| + 1..] == tail;
      SplitJoin(parts[1..], sep);
    }
  }

  // --------------------------------------------------------- split(/\s+/)

  /** The characters of `s` that are not white space, in order. */
  function RemoveSpaces(s: string): string
    decreases |s|
  {
    if |s| == 0 then "" else (if IsSpace(s[0]) then "" else [s[0]]) + RemoveSpaces(s[1..])
  }

  lemma {:induction false} RemoveSpacesAppend(a: string, b: string)
    ensures RemoveSpaces(a + b) == RemoveSpaces(a) + RemoveSpaces(b)
    decreases |a|
  {
    if |a| == 0 {
      assert a + b == b;
    } else {
      assert (a + b)[1..] == a[1..] + b;
      RemoveSpacesAppend(a[1..], b);
    }
  }

  lemma {:induction false} RemoveSpacesOfNoSpace(s: string)
    requires NoSpace(s)
    ensures RemoveSpaces(s) == s
    decreases |s|
  {
    if |s| > 0 {
      RemoveSpacesOfNoSpace(s[1..]);
    }
  }

  function Concat(parts: seq<string>): string
    decreases |parts|
  {
    if |parts| == 0 then "" else parts[0] + Concat(parts[1..])
  }

  /** `s.split(/\s+/)`: the pieces between maximal runs of white space. A
      leading (trailing) run yields an empty first (last) piece, as in
      JavaScript. The pieces hold every non-space character, in order, and
      none of the white space; a trimmed non-empty string has no empty piece. */
  function SplitWs(s: string): (parts: seq<string>)
    ensures |parts| >= 1
    ensures forall i :: 0 <= i < |parts| ==> NoSpace(parts[i])
    ensures Concat(parts) == RemoveSpaces(s)
    ensures parts[0] == s[..RunEnd(s, 0, NotSpace)]
    ensures IsTrimmed(s) && |s| > 0 ==> forall i :: 0 <= i < |parts| ==> |parts[i]| > 0
    decreases |s|
  {
    var i := RunEnd(s, 0, NotSpace);
    if i == |s| then
      RemoveSpacesOfNoSpace(s);
      [s]
    else
      var j := RunEnd(s, i, IsSpace);
      var rest := SplitWs(s[j..]);
      RemoveSpacesAround(s, i, j);
      assert IsTrimmed(s) && |s| > 0 ==> j < |s| && IsTrimmed(s[j..]);
      [s[..i]] + rest
  }

  lemma RemoveSpacesAround(s: string, i: nat, j: nat)
    requires i <= j <= |s|
    requires NoSpace(s[..i])
    requires forall k :: i <= k < j ==> IsSpace(s[k])
    ensures RemoveSpaces(s) == s[..i] + RemoveSpaces(s[j..])
  {
    assert s == s[..i] + s[i..j] + s[j..];
    SliceAllSpace(s, i, j);
    RemoveSpacesThree(s[..i], s[i..j], s[j..]);
  }

  lemma SliceAllSpace(s: string, i: nat, j: nat)
    requires i <= j <= |s|
    requires forall k :: i <= k < j ==> IsSpace(s[k])
    ensures forall k :: 0 <= k < |s[i..j]| ==> IsSpace(s[i..j][k])
  {
  }

  lemma RemoveSpacesThree(a: string, b: string, c: string)
    requires NoSpace(a)
    requires forall k :: 0 <= k < |b| ==> IsSpace(b[k])
    ensures RemoveSpaces(a + b + c) == a + RemoveSpaces(c)
  {
    RemoveSpacesAppend(a, b);
    RemoveSpacesOfNoSpace(a);
    NoneKept(b);
    assert RemoveSpaces(a + b) == a;
    RemoveSpacesAppend(a + b, c);
  }

  lemma {:induction false} NoneKept(s: string)
    requires forall k :: 0 <= k < |s| ==> IsSpace(s[k])
    ensures RemoveSpaces(s) == []
    decreases |s|
  {
    if |s| > 0 {
      NoneKept(s[1..]);
    }
  }

  /** Splitting on white space undoes joining non-empty, space-free pieces
      with single spaces. */
  lemma {:induction false} SplitWsJoin(parts: seq<string>)
    requires |parts| >= 1
    requires forall i :: 0 <= i < |parts| ==> |parts[i]| > 0 && NoSpace(parts[i])
    ensures SplitWs(Join(parts, ' ')) == parts
    decreases |parts|
  {
    var s := Join(parts, ' ');
    var p := parts[0];
    if |parts| == 1 {
      RunEndExact(s, 0, |s|, NotSpace);
    } else {
      var tail := Join(parts[1..], ' ');
      assert s == p + [' '] + tail;
      JoinStartsWith(parts[1..]);
      assert forall k :: 0 <= k < |p| ==> s[k] == p[k];
      RunEndExact(s, 0, |p|, NotSpace);
      RunEndExact(s, |p|, |p| + 1, IsSpace);
      assert s[..|p|] == p;
      assert s[|p| + 1..] == tail;
      SplitWsJoin(parts[1..]);
    }
  }

  /** A join of non-empty, space-free pieces starts with a non-space. */
  lemma JoinStartsWith(parts: seq<string>)
    requires |parts| >= 1
    requires forall i :: 0 <= i < |parts| ==> |parts[i]| > 0 && NoSpace(parts[i])
    ensures |Join(parts, ' ')| > 0 && Join(parts, ' ')[0] == parts[0][0]
  {
  }

  // --------------------------------------------------------------- digits

  function DigitValue(c: char): nat
    requires IsDigit(c)
  {
    c as int - '0' as int
  }

  function DigitChar(d: nat): (c: char)
    requires d < 10
    ensures IsDigit(c) && DigitValue(c) == d
  {
    ('0' as int + d) as char
  }

  /** Value of a string of decimal digits (empty string: 0). */
  function DecimalValue(s: string): nat
    requires IsDigits(s)
    decreases |s|
  {
    if |s| == 0 then 0 else DecimalValue(s[..|s| - 1]) * 10 + DigitValue(s[|s| - 1])
  }

  /** Decimal notation of a natural number, without leading zeros; reading it
      back gives the number. */
  function NatToString(n: nat): (s: string)
    ensures |s| >= 1 && IsDigits(s)
    ensures DecimalValue(s) == n
    ensures n >= 10 ==> s[0] != '0'
    decreases n
  {
    if n < 10 then [DigitChar(n)]
    else
      var prefix := NatToString(n / 10);
      var s := prefix + [DigitChar(n % 10)];
      assert s[..|s| - 1] == prefix;
      s
  }

  // ------------------------------------------------------ replace / lower

  /** `s.replace(c, '')` with a one-character string pattern: only the first
      occurrence is removed. */
  function RemoveFirst(s: string, c: char): (r: string)
    ensures c !in s ==> r == s
    ensures c in s ==> |r| == |s| - 1 && r == s[..IndexOf(s, c)] + s[IndexOf(s, c) + 1..]
  {
    var i := IndexOf(s, c);
    if i == |s| then s else s[..i] + s[i + 1..]
  }

  function LowerChar(c: char): char {
    if 'A' <= c <= 'Z' then (c as int + 32) as char else c
  }

  /** Lower-casing restricted to ASCII letters. The only non-ASCII characters
      whose JavaScript lower case contains ASCII letters (KELVIN SIGN and LATIN
      CAPITAL LETTER I WITH DOT ABOVE) cannot take part in an occurrence of
      the lower-case ASCII needle "device address", so for that use it agrees
      with `toLowerCase`. */
  function AsciiLower(s: string): (r: string)
    ensures |r| == |s|
    ensures forall i :: 0 <= i < |s| ==> r[i] == LowerChar(s[i])
  {
    seq(|s|, i requires 0 <= i < |s| => LowerChar(s[i]))
  }
}
