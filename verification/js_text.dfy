/**
 * The JavaScript string and number built-ins the listing pipeline relies on:
 * `String.prototype.includes`, `split` on one character, `replace` with a global
 * literal pattern, ASCII `toLowerCase`, `parseInt(_, 10)`, `Number(string)` and
 * `Number.prototype.toString()` for integers.
 */
module JsText {

  /** A JavaScript number as far as this pipeline produces one: NaN or an integer. */
  datatype Num = NaN | Int(value: int)

  /** `a + b` on two numbers: NaN is absorbing. */
  function Add(a: Num, b: Num): Num {
    if a.Int? && b.Int? then Int(a.value + b.value) else NaN
  }

  // ---------------------------------------------------------------- digits

  predicate IsDigit(c: char) { '0' <= c <= '9' }

  predicate AllDigits(s: string) {
    forall i | 0 <= i < |s| :: IsDigit(s[i])
  }

  function DigitValue(c: char): (d: nat)
    requires IsDigit(c)
    ensures d < 10
  {
    (c as int) - ('0' as int)
  }

  function DigitChar(d: nat): (c: char)
    requires d < 10
    ensures IsDigit(c) && DigitValue(c) == d
  {
    ('0' as int + d) as char
  }

  /** The value of a string of decimal digits, most significant first. */
  function DigitsValue(s: string): nat
    requires AllDigits(s)
    decreases |s|
  {
    if s == [] then 0 else DigitsValue(s[..|s| - 1]) * 10 + DigitValue(s[|s| - 1])
  }

  /** The decimal numeral of `n`, without leading zeros. */
  function NatToString(n: nat): (s: string)
    ensures s != [] && AllDigits(s)
    ensures DigitsValue(s) == n
    ensures s[0] == '0' ==> n == 0
    decreases n
  {
    if n < 10 then [DigitChar(n)]
    else
      var s := NatToString(n / 10) + [DigitChar(n % 10)];
      assert s[..|s| - 1] == NatToString(n / 10);
      s
  }

  /** `Number.prototype.toString()` on an integer: a minus sign, then the numeral. */
  function IntToString(i: int): string {
    if i < 0 then "-" + NatToString(-i) else NatToString(i)
  }

  /** `String(n)`: "NaN" or the integer's numeral. */
  function NumToString(n: Num): string {
    match n
    case NaN => "NaN"
    case Int(i) => IntToString(i)
  }

  // ------------------------------------------------------------ whitespace

  /**
   * The characters `parseInt`, `Number` and `trim` skip: the WhiteSpace and
   * LineTerminator productions of ECMAScript, Unicode space separators included.
   */
  predicate IsWhiteSpace(c: char) {
    c == '\t' || c == '\n' || c == '\U{B}' || c == '\U{C}' || c == '\r' || c == ' '
    || c == '\U{A0}' || c == '\U{1680}' || ('\U{2000}' <= c <= '\U{200A}')
    || c == '\U{2028}' || c == '\U{2029}' || c == '\U{202F}' || c == '\U{205F}'
    || c == '\U{3000}' || c == '\U{FEFF}'
  }

  function TrimStart(s: string): (t: string)
    ensures |t| <= |s| && t == s[|s| - |t|..]
    ensures t == [] || !IsWhiteSpace(t[0])
    ensures s == [] || !IsWhiteSpace(s[0]) ==> t == s
    decreases |s|
  {
    if s != [] && IsWhiteSpace(s[0]) then TrimStart(s[1..]) else s
  }

  function TrimEnd(s: string): (t: string)
    ensures |t| <= |s| && t == s[..|t|]
    ensures t == [] || !IsWhiteSpace(t[|t| - 1])
    ensures s == [] || !IsWhiteSpace(s[|s| - 1]) ==> t == s
    decreases |s|
  {
    if s != [] && IsWhiteSpace(s[|s| - 1]) then TrimEnd(s[..|s| - 1]) else s
  }

  // ------------------------------------------------------- number parsing

  /** The longest prefix of `s` made of decimal digits. */
  function DigitPrefix(s: string): (d: string)
    ensures |d| <= |s| && d == s[..|d|] && AllDigits(d)
    ensures |d| < |s| ==> !IsDigit(s[|d|])
    decreases |s|
  {
    if s != [] && IsDigit(s[0]) then [s[0]] + DigitPrefix(s[1..]) else []
  }

  /** An optional leading sign: whether it was '-', and what follows it. */
  function SplitSign(t: string): (bool, string) {
    if t != [] && t[0] == '-' then (true, t[1..])
    else if t != [] && t[0] == '+' then (false, t[1..])
    else (false, t)
  }

  function Signed(negative: bool, n: nat): int {
    if negative then -(n as int) else n
  }

  /**
   * `parseInt(s, 10)`: skip leading whitespace, read an optional sign and the
   * longest run of digits after it; NaN when that run is empty.
   */
  function ParseInt(s: string): (n: Num)
    ensures (forall c | c in s :: !IsDigit(c)) ==> n.NaN?
  {
    var (negative, rest) := SplitSign(TrimStart(s));
    var d := DigitPrefix(rest);
    if d == [] then NaN
    else
      FirstDigitIn(s);
      Int(Signed(negative, DigitsValue(d)))
  }

  /** The first digit `parseInt` reads is a character of its input. */
  lemma FirstDigitIn(s: string)
    requires DigitPrefix(SplitSign(TrimStart(s)).1) != []
    ensures DigitPrefix(SplitSign(TrimStart(s)).1)[0] in s
  {
    var t := TrimStart(s);
    var rest := SplitSign(t).1;
    SplitSignSuffix(t);
    SuffixMember(s, t, rest);
  }

  /** What `SplitSign` leaves is a suffix of its input. */
  lemma SplitSignSuffix(t: string)
    ensures |SplitSign(t).1| <= |t| && SplitSign(t).1 == t[|t| - |SplitSign(t).1|..]
  {
    if t != [] && (t[0] == '-' || t[0] == '+') {
      assert SplitSign(t).1 == t[1..];
    } else {
      assert SplitSign(t).1 == t;
      assert t[0..] == t;
    }
  }

  /** The first character of a suffix of a suffix of `s` occurs in `s`. */
  lemma SuffixMember(s: string, t: string, rest: string)
    requires |t| <= |s| && t == s[|s| - |t|..]
    requires rest != [] && |rest| <= |t| && rest == t[|t| - |rest|..]
    ensures rest[0] in s
  {
    assert rest[0] == s[|s| - |rest|];
  }

  /**
   * `Number(s)` restricted to decimal integers: the trimmed text is empty (0), or
   * an optional sign followed by digits only; anything else is NaN here.
   */
  function NumberOf(s: string): (n: Num)
    ensures (forall c | c in s :: IsWhiteSpace(c)) ==> n == Int(0)
    ensures (forall c | c in s :: !IsDigit(c)) ==> n == Int(0) || n.NaN?
  {
    var t := TrimEnd(TrimStart(s));
    if t == [] then Int(0)
    else
      assert t[0] in s by {
        TrimmedAt(s, 0);
      }
      var (negative, rest) := SplitSign(t);
      if rest != [] && AllDigits(rest) then
        assert rest[0] in s by {
          SplitSignSuffix(t);
          TrimmedAt(s, |t| - |rest|);
        }
        Int(Signed(negative, DigitsValue(rest)))
      else NaN
  }

  /** Every character of the trimmed text comes from the text. */
  lemma TrimmedAt(s: string, k: nat)
    requires k < |TrimEnd(TrimStart(s))|
    ensures TrimEnd(TrimStart(s))[k] in s
  {
    var t1 := TrimStart(s);
    PrefixAt(t1, TrimEnd(t1), k);
    SuffixAt(s, t1, k);
  }

  lemma PrefixAt(s: string, t: string, k: nat)
    requires |t| <= |s| && t == s[..|t|] && k < |t|
    ensures t[k] == s[k]
  {
  }

  lemma SuffixAt(s: string, t: string, k: nat)
    requires |t| <= |s| && t == s[|s| - |t|..] && k < |t|
    ensures t[k] in s
  {
    assert t[k] == s[|s| - |t| + k];
  }

  lemma DigitPrefixOfDigits(s: string)
    requires AllDigits(s)
    ensures DigitPrefix(s) == s
  {
  }

  /** `parseInt` reads back every integer `toString` writes. */
  lemma ParseIntRoundTrip(i: int)
    ensures ParseInt(IntToString(i)) == Int(i)
  {
    var s := IntToString(i);
    var digits := NatToString(if i < 0 then -i else i);
    DigitPrefixOfDigits(digits);
    assert !IsWhiteSpace(s[0]) by {
      assert s[0] == '-' || IsDigit(s[0]);
    }
    assert TrimStart(s) == s;
    if i < 0 {
      assert s[1..] == digits;
      assert SplitSign(s) == (true, digits);
    } else {
      assert s == digits;
      assert SplitSign(s) == (false, digits);
    }
  }

  /** So does `Number`. */
  lemma NumberOfRoundTrip(i: int)
    ensures NumberOf(IntToString(i)) == Int(i)
  {
    var s := IntToString(i);
    var digits := NatToString(if i < 0 then -i else i);
    assert !IsWhiteSpace(s[0]) by {
      assert s[0] == '-' || IsDigit(s[0]);
    }
    assert !IsWhiteSpace(s[|s| - 1]) by {
      assert s[|s| - 1] == digits[|digits| - 1];
      assert IsDigit(digits[|digits| - 1]);
    }
    assert TrimEnd(TrimStart(s)) == s;
    if i < 0 {
      assert s[1..] == digits;
      assert SplitSign(s) == (true, digits);
    } else {
      assert s == digits;
      assert SplitSign(s) == (false, digits);
    }
  }

  lemma TrimPadded(s: string)
    requires s != [] && !IsWhiteSpace(s[0]) && !IsWhiteSpace(s[|s| - 1])
    ensures TrimEnd(TrimStart(" " + s + " ")) == s
    ensures TrimEnd(TrimStart(s)) == s
  {
    TrimStartPadded(s);
    TrimEndPadded(s);
  }

  /** A leading space is dropped and the trim stops at `s`. */
  lemma TrimStartPadded(s: string)
    requires s != [] && !IsWhiteSpace(s[0])
    ensures TrimStart(" " + s + " ") == s + " "
    ensures TrimStart(s) == s
  {
    assert " " + s + " " == " " + (s + " ");
    LeadingSpace(s + " ");
    ConsTail(s, " ");
  }

  lemma LeadingSpace(t: string)
    ensures TrimStart(" " + t) == TrimStart(t)
  {
    assert (" " + t)[0] == ' ' && (" " + t)[1..] == t;
  }

  /** A trailing space is dropped and the trim stops at `s`. */
  lemma TrimEndPadded(s: string)
    requires s != [] && !IsWhiteSpace(s[|s| - 1])
    ensures TrimEnd(s + " ") == s
    ensures TrimEnd(s) == s
  {
    assert (s + " ")[..|s|] == s;
  }

  /** `Number` ignores the whitespace around the numeral. */
  lemma NumberOfPadded(i: int)
    ensures NumberOf(" " + IntToString(i) + " ") == Int(i)
  {
    var s := IntToString(i);
    NumberOfRoundTrip(i);
    IntToStringEnds(i);
    TrimPadded(s);
    NumberOfTrimmed(" " + s + " ", s);
  }

  /** A numeral starts and ends with a character that is not whitespace. */
  lemma IntToStringEnds(i: int)
    ensures var s := IntToString(i);
      s != [] && !IsWhiteSpace(s[0]) && !IsWhiteSpace(s[|s| - 1])
  {
    var s := IntToString(i);
    var digits := NatToString(if i < 0 then -i else i);
    assert !IsWhiteSpace(s[0]) by {
      assert s[0] == '-' || IsDigit(s[0]);
    }
    assert !IsWhiteSpace(s[|s| - 1]) by {
      assert s[|s| - 1] == digits[|digits| - 1];
      assert IsDigit(digits[|digits| - 1]);
    }
  }

  /** `Number` only looks at the trimmed text. */
  lemma NumberOfTrimmed(s: string, t: string)
    requires TrimEnd(TrimStart(s)) == TrimEnd(TrimStart(t))
    ensures NumberOf(s) == NumberOf(t)
  {
  }

  /** On a string of digits `parseInt` is exactly the numeral's value, NaN when empty. */
  lemma ParseIntOfDigits(d: string)
    requires AllDigits(d)
    ensures ParseInt(d) == if d == [] then NaN else Int(DigitsValue(d))
  {
    if d != [] {
      DigitNotSpace(d[0]);
      var t := TrimStart(d);
      assert t == d;
      assert SplitSign(t) == (false, d);
      DigitPrefixOfDigits(d);
    }
  }

  lemma DigitNotSpace(c: char)
    requires IsDigit(c)
    ensures !IsWhiteSpace(c) && c != '-' && c != '+'
  {
  }

  // --------------------------------------------------------------- strings

  predicate StartsWith(s: string, p: string) {
    |p| <= |s| && s[..|p|] == p
  }

  /** `s.includes(p)`: `p` occurs in `s` at some position. */
  predicate Contains(s: string, p: string)
    ensures Contains(s, p) ==> |p| <= |s|
    ensures p == [] ==> Contains(s, p)
    decreases |s|
  {
    StartsWith(s, p) || (s != [] && Contains(s[1..], p))
  }

  /** `Contains` is exactly "occurs at some index". */
  lemma {:induction false} ContainsIff(s: string, p: string)
    ensures Contains(s, p) <==> exists k :: 0 <= k <= |s| && StartsWith(s[k..], p)
    decreases |s|
  {
    if s != [] {
      ContainsIff(s[1..], p);
      forall k | 1 <= k <= |s| ensures s[k..] == s[1..][k - 1..] { }
      if StartsWith(s[1..][0..], p) {
        assert s[1..][0..] == s[1..];
      }
    } else {
      assert s[0..] == s;
    }
    if StartsWith(s, p) {
      assert s[0..] == s;
    }
  }

  lemma {:induction false} ContainsSuffix(s: string, k: nat, p: string)
    requires k <= |s|
    ensures Contains(s[k..], p) ==> Contains(s, p)
    decreases k
  {
    if k == 0 {
      assert s[0..] == s;
    } else {
      assert s[1..][k - 1..] == s[k..];
      ContainsSuffix(s[1..], k - 1, p);
    }
  }

  lemma ContainsEmpty(s: string)
    ensures Contains(s, "")
  {
    assert StartsWith(s, "");
  }

  /** `'+' in s` is `s.includes("+")` for a one-character pattern. */
  lemma {:induction false} ContainsChar(s: string, c: char)
    ensures Contains(s, [c]) <==> c in s
    decreases |s|
  {
    if s != [] {
      ContainsChar(s[1..], c);
      assert s == [s[0]] + s[1..];
    }
  }

  function ToLowerChar(c: char): char {
    if 'A' <= c <= 'Z' then (c as int + 32) as char else c
  }

  /** `toLowerCase()` on ASCII letters. */
  function ToLower(s: string): (t: string)
    ensures |t| == |s|
    ensures forall i | 0 <= i < |s| :: t[i] == ToLowerChar(s[i])
  {
    seq(|s|, i requires 0 <= i < |s| => ToLowerChar(s[i]))
  }

  lemma ToLowerIdempotent(s: string)
    ensures ToLower(ToLower(s)) == ToLower(s)
  {
  }

  /** `s.split(sep)` for a one-character separator. */
  function Split(s: string, sep: char): (parts: seq<string>)
    ensures |parts| >= 1
    ensures forall k | 0 <= k < |parts| :: sep !in parts[k]
    ensures sep in s ==> |parts| >= 2
    decreases |s|
  {
    if s == [] then [""]
    else if s[0] == sep then [""] + Split(s[1..], sep)
    else
      var rest := Split(s[1..], sep);
      [[s[0]] + rest[0]] + rest[1..]
  }

  /** `parts.join(sep)`. */
  function Join(parts: seq<string>, sep: char): string
    requires |parts| >= 1
    decreases |parts|
  {
    if |parts| == 1 then parts[0] else parts[0] + [sep] + Join(parts[1..], sep)
  }

  /** Splitting loses nothing: joining the parts again gives back the string. */
  lemma {:induction false} SplitJoin(s: string, sep: char)
    ensures Join(Split(s, sep), sep) == s
    decreases |s|
  {
    if s != [] {
      SplitJoin(s[1..], sep);
      var rest := Split(s[1..], sep);
      if s[0] == sep {
        assert ([""] + rest)[1..] == rest;
      } else if |rest| > 1 {
        var parts := [[s[0]] + rest[0]] + rest[1..];
        assert parts[1..] == rest[1..];
        assert Join(rest, sep) == rest[0] + [sep] + Join(rest[1..], sep);
        assert Join(parts, sep) == [s[0]] + Join(rest, sep);
      } else {
        assert Join(rest, sep) == rest[0];
      }
      assert s == [s[0]] + s[1..];
    }
  }

  /** The first part ends at the first separator. */
  lemma {:induction false} SplitAtFirst(x: string, sep: char, y: string)
    requires sep !in x
    ensures Split(x + [sep] + y, sep) == [x] + Split(y, sep)
    decreases |x|
  {
    if x == [] {
      assert x + [sep] + y == [sep] + y;
      assert ([sep] + y)[1..] == y;
    } else {
      assert (x + [sep] + y)[1..] == x[1..] + [sep] + y;
      SplitAtFirst(x[1..], sep, y);
      var rest := Split(x[1..] + [sep] + y, sep);
      assert rest[1..] == Split(y, sep);
      assert [x[0]] + rest[0] == x;
    }
  }

  /** A string without the separator is one part. */
  lemma {:induction false} SplitWithout(x: string, sep: char)
    requires sep !in x
    ensures Split(x, sep) == [x]
    decreases |x|
  {
    if x != [] {
      SplitWithout(x[1..], sep);
      assert [x[0]] + x[1..] == x;
    }
  }

  /** `s.replace(/p/g, r)` for a literal pattern: leftmost, non-overlapping occurrences. */
  function ReplaceAll(s: string, p: string, r: string): (o: string)
    requires p != []
    ensures forall c | c in o :: c in s || c in r
    decreases |s|
  {
    if s == [] then []
    else if StartsWith(s, p) then
      assert forall c | c in s[|p|..] :: c in s;
      r + ReplaceAll(s[|p|..], p, r)
    else
      assert forall c | c in s[1..] :: c in s;
      [s[0]] + ReplaceAll(s[1..], p, r)
  }

  /** Text without the pattern passes through unchanged. */
  lemma {:induction false} ReplaceAllIdentity(s: string, p: string, r: string)
    requires p != [] && !Contains(s, p)
    ensures ReplaceAll(s, p, r) == s
    decreases |s|
  {
    if s != [] {
      ReplaceAllIdentity(s[1..], p, r);
    }
  }

  /**
   * What the replacement must look like for a pass to leave no occurrence of `q`
   * behind: `q` starts with a character found nowhere else in it, the
   * replacement starts with that same character and never repeats it, and
   * neither of `q` and the replacement is a prefix of the other.
   */
  predicate SafeReplacement(r: string, q: string) {
    && q != [] && r != []
    && r[0] == q[0]
    && (forall i | 1 <= i < |q| :: q[i] != q[0])
    && (forall i | 1 <= i < |r| :: r[i] != q[0])
    && !StartsWith(r, q) && !StartsWith(q, r)
  }

  /** Output that begins with text free of `r[0]` began that way in the input too. */
  lemma {:induction false} ReplacePrefix(t: string, p: string, r: string, w: string)
    requires p != [] && r != []
    requires forall i | 0 <= i < |w| :: w[i] != r[0]
    requires StartsWith(ReplaceAll(t, p, r), w)
    ensures StartsWith(t, w)
    decreases |w|
  {
    if w != [] {
      var o := ReplaceAll(t, p, r);
      assert o[0] == w[0];
      assert t != [];
      if StartsWith(t, p) {
        assert false;
      }
      assert o == [t[0]] + ReplaceAll(t[1..], p, r);
      assert StartsWith(ReplaceAll(t[1..], p, r), w[1..]) by {
        assert o[1..|w|] == w[1..];
      }
      ReplacePrefix(t[1..], p, r, w[1..]);
      assert t[..|w|] == [t[0]] + t[1..][..|w| - 1];
    }
  }

  /** Concatenation keeps `q` out when no occurrence starts in the left part. */
  lemma {:induction false} NotContainsConcat(a: string, b: string, q: string)
    requires forall j | 0 <= j < |a| :: !StartsWith((a + b)[j..], q)
    requires !Contains(b, q)
    ensures !Contains(a + b, q)
    decreases |a|
  {
    if a == [] {
      assert a + b == b;
    } else {
      assert (a + b)[1..] == a[1..] + b;
      forall j | 0 <= j < |a[1..]| ensures !StartsWith((a[1..] + b)[j..], q) {
        assert (a[1..] + b)[j..] == (a + b)[j + 1..];
      }
      NotContainsConcat(a[1..], b, q);
      assert (a + b)[0..] == a + b;
    }
  }

  /** A replacement that meets `SafeReplacement` starts no occurrence of `q` inside itself. */
  lemma ReplacedHeadSafe(r: string, o: string, q: string)
    requires SafeReplacement(r, q) && !Contains(o, q)
    ensures !Contains(r + o, q)
  {
    forall j | 0 <= j < |r| ensures !StartsWith((r + o)[j..], q) {
      if j == 0 {
        assert (r + o)[0..] == r + o;
        if |q| <= |r| {
          assert (r + o)[..|q|] == r[..|q|];
        } else if |q| <= |r + o| {
          assert (r + o)[..|q|][..|r|] == r;
        }
      } else {
        assert (r + o)[j..][0] == r[j];
      }
    }
    NotContainsConcat(r, o, q);
  }

  /** A string that starts with `q` after a first character `c` starts with `q`'s tail after it. */
  lemma ConsStartsWith(o: string, c: char, o': string, q: string)
    requires o == [c] + o' && q != [] && StartsWith(o, q)
    ensures c == q[0] && StartsWith(o', q[1..])
  {
    assert o[0] == c;
    assert o[1..|q|] == o'[..|q| - 1];
    assert q[1..] == o[..|q|][1..];
  }

  /** And the converse. */
  lemma StartsWithCons(s: string, q: string)
    requires s != [] && q != [] && s[0] == q[0] && StartsWith(s[1..], q[1..])
    ensures StartsWith(s, q)
  {
    assert s[..|q|] == [s[0]] + s[1..][..|q| - 1];
    assert q == [q[0]] + q[1..];
  }

  /** The tail of a safe `q` never holds the replacement's first character. */
  lemma SafeTail(r: string, q: string)
    requires SafeReplacement(r, q)
    ensures forall i | 0 <= i < |q[1..]| :: q[1..][i] != r[0]
  {
    forall i | 0 <= i < |q[1..]| ensures q[1..][i] != r[0] {
      assert q[1..][i] == q[i + 1];
    }
  }

  /** Where the input keeps its first character, the output cannot start an occurrence of `q`. */
  lemma KeptHeadSafe(s: string, p: string, r: string, q: string)
    requires p != [] && SafeReplacement(r, q) && s != [] && !StartsWith(s, p)
    requires q == p || !Contains(s, q)
    ensures !StartsWith([s[0]] + ReplaceAll(s[1..], p, r), q)
  {
    var o' := ReplaceAll(s[1..], p, r);
    var o := [s[0]] + o';
    if StartsWith(o, q) {
      ConsStartsWith(o, s[0], o', q);
      SafeTail(r, q);
      ReplacePrefix(s[1..], p, r, q[1..]);
      StartsWithCons(s, q);
      assert false;
    }
  }

  /**
   * A replace-all pass leaves no occurrence of `q` when `q` is the pattern it
   * replaces, or when `q` was absent before the pass.
   */
  lemma {:induction false} ReplaceAllAbsent(s: string, p: string, r: string, q: string)
    requires p != [] && SafeReplacement(r, q)
    requires q == p || !Contains(s, q)
    ensures !Contains(ReplaceAll(s, p, r), q)
    decreases |s|
  {
    if s == [] {
      assert !StartsWith(ReplaceAll(s, p, r), q);
    } else if StartsWith(s, p) {
      var s' := s[|p|..];
      ContainsSuffix(s, |p|, q);
      ReplaceAllAbsent(s', p, r, q);
      ReplacedHeadSafe(r, ReplaceAll(s', p, r), q);
    } else {
      var s' := s[1..];
      ContainsSuffix(s, 1, q);
      ReplaceAllAbsent(s', p, r, q);
      var o' := ReplaceAll(s', p, r);
      KeptHeadSafe(s, p, r, q);
      forall j | 0 <= j < 1 ensures !StartsWith(([s[0]] + o')[j..], q) {
        assert ([s[0]] + o')[0..] == [s[0]] + o';
      }
      NotContainsConcat([s[0]], o', q);
    }
  }

  /** One step of a pass where no occurrence starts: the first character is kept. */
  lemma ReplaceAllKeep(s: string, p: string, r: string)
    requires p != [] && s != [] && !StartsWith(s, p)
    ensures ReplaceAll(s, p, r) == [s[0]] + ReplaceAll(s[1..], p, r)
  {
  }

  /** One step of a pass where an occurrence starts: it becomes the replacement. */
  lemma ReplaceAllHit(s: string, p: string, r: string)
    requires p != [] && StartsWith(s, p)
    ensures ReplaceAll(s, p, r) == r + ReplaceAll(s[|p|..], p, r)
  {
  }

  /** An occurrence of a non-empty pattern puts its first character in the text. */
  lemma {:induction false} ContainsHead(s: string, p: string)
    requires p != [] && Contains(s, p)
    ensures p[0] in s
    decreases |s|
  {
    if !StartsWith(s, p) {
      ContainsHead(s[1..], p);
    }
  }

  /** Text free of the pattern's first character is copied as it is, and the pass goes on after it. */
  lemma {:induction false} ReplaceAllFreshPrefix(a: string, o: string, p: string, r: string)
    requires p != [] && p[0] !in a
    ensures ReplaceAll(a + o, p, r) == a + ReplaceAll(o, p, r)
    decreases |a|
  {
    if a == [] {
      assert a + o == o;
    } else {
      ConsTail(a, o);
      ReplaceAllKeep(a + o, p, r);
      ReplaceAllFreshPrefix(a[1..], o, p, r);
      ConsTail(a, ReplaceAll(o, p, r));
    }
  }

  /**
   * A pass replaces an occurrence in place: the text before it is copied, the
   * occurrence becomes the replacement, and the pass goes on after it. The text
   * before holds no occurrence and does not end in a proper prefix of the
   * pattern, so no match the pass meets earlier overlaps this one.
   */
  lemma {:induction false} ReplaceAllStep(a: string, p: string, b: string, r: string)
    requires p != [] && !Contains(a, p)
    requires forall k | 0 <= k < |a| && |a| - k < |p| :: !StartsWith(p, a[k..])
    ensures ReplaceAll(a + p + b, p, r) == a + r + ReplaceAll(b, p, r)
    decreases |a|
  {
    if a == [] {
      assert a + p + b == p + b;
      PatternHead(p, b);
      ReplaceAllHit(p + b, p, r);
    } else {
      NoMatchAtHead(a, p, b);
      ReplaceAllKeep(a + p + b, p, r);
      NoPrefixTail(a, p);
      ReplaceAllStep(a[1..], p, b, r);
      ConcatTail(a, p, b);
      ConcatTail(a, r, ReplaceAll(b, p, r));
    }
  }

  /** Dropping the first element of a concatenation with a non-empty head. */
  lemma ConsTail<T>(a: seq<T>, x: seq<T>)
    requires a != []
    ensures (a + x)[0] == a[0] && (a + x)[1..] == a[1..] + x
    ensures [a[0]] + (a[1..] + x) == a + x
  {
  }

  /** Dropping the first element of a three-part concatenation with a non-empty head. */
  lemma ConcatTail<T>(a: seq<T>, x: seq<T>, y: seq<T>)
    requires a != []
    ensures (a + x + y)[1..] == a[1..] + x + y
    ensures [a[0]] + (a[1..] + x + y) == a + x + y
  {
  }

  lemma PatternHead(p: string, b: string)
    ensures StartsWith(p + b, p) && (p + b)[|p|..] == b
  {
    assert (p + b)[..|p|] == p;
  }

  /** No occurrence starts at the head of `a + p + b` under the conditions of `ReplaceAllStep`. */
  lemma NoMatchAtHead(a: string, p: string, b: string)
    requires a != [] && p != [] && !Contains(a, p)
    requires forall k | 0 <= k < |a| && |a| - k < |p| :: !StartsWith(p, a[k..])
    ensures a + p + b != [] && !StartsWith(a + p + b, p)
  {
    var s := a + p + b;
    if |p| <= |a| {
      assert s[..|p|] == a[..|p|];
    } else {
      assert a[0..] == a;
      assert s[..|a|] == a;
    }
  }

  /** The suffix condition of `ReplaceAllStep` passes to the tail. */
  lemma NoPrefixTail(a: string, p: string)
    requires a != []
    requires forall k | 0 <= k < |a| && |a| - k < |p| :: !StartsWith(p, a[k..])
    ensures forall k | 0 <= k < |a[1..]| && |a[1..]| - k < |p| :: !StartsWith(p, a[1..][k..])
  {
    forall k | 0 <= k < |a[1..]| && |a[1..]| - k < |p| ensures !StartsWith(p, a[1..][k..]) {
      assert a[1..][k..] == a[k + 1..];
    }
  }

  /**
   * Text that differs from the pattern at some index, and holds the pattern's
   * first character nowhere after its own first one, is copied as it is.
   */
  lemma ReplaceAllSkip(t: string, o: string, p: string, r: string, i: nat)
    requires p != [] && t != [] && p[0] !in t[1..]
    requires i < |t| && i < |p| && t[i] != p[i]
    ensures ReplaceAll(t + o, p, r) == t + ReplaceAll(o, p, r)
  {
    assert !StartsWith(t + o, p) by {
      assert (t + o)[i] == t[i];
    }
    ConsTail(t, o);
    ReplaceAllKeep(t + o, p, r);
    ReplaceAllFreshPrefix(t[1..], o, p, r);
    ConsTail(t, ReplaceAll(o, p, r));
  }
}
