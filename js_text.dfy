/**
 * The few JavaScript string and number built-ins that the rest of the model
 * relies on: `String.prototype.trim`, `split`, `includes`, `startsWith`,
 * `toLowerCase`/`toUpperCase` on ASCII letters, `parseInt` with no radix and
 * the decimal rendering of a non-negative integer.
 */
module JsText {

  datatype Option<+T> = None | Some(value: T)

  /** A number as `parseInt` produces it: an integer or NaN. */
  datatype Num = NaN | Int(value: int)

  /** A JSON scalar as stored and sent: null, a string, an (integral) number or NaN. */
  datatype JsValue = JsNull | JsString(s: string) | JsNumber(n: int) | JsNaN

  /** JavaScript truthiness of a number: NaN and 0 are falsy. */
  predicate NumTruthy(n: Num) {
    n.Int? && n.value != 0
  }

  /** `Math.min` and `Math.max` on integers. */
  function Min(a: int, b: int): int { if a <= b then a else b }
  function Max(a: int, b: int): int { if a >= b then a else b }

  lemma {:induction false} MulMonotone(c: nat, a: int, b: int)
    requires a <= b
    ensures c * a <= c * b
    decreases b - a
  {
    if a < b {
      MulMonotone(c, a, b - 1);
      assert c * b == c * (b - 1) + c;
    }
  }

  lemma MulStep(c: nat, a: int, b: int)
    requires a < b
    ensures c * a + c <= c * b
  {
    MulMonotone(c, a + 1, b);
    assert c * (a + 1) == c * a + c;
  }

  /** One more row of `c` adds `c`. */
  lemma MulSucc(a: int, c: int)
    ensures (a + 1) * c == a * c + c
  {
  }

  /** Integer division by a positive divisor is determined by quotient and remainder. */
  lemma DivUnique(n: int, c: int, q: int, r: int)
    requires c > 0 && 0 <= r < c && n == c * q + r
    ensures n / c == q
  {
    var q', r' := n / c, n % c;
    assert n == c * q' + r';
    if q' < q {
      MulStep(c, q', q);
    } else if q < q' {
      MulStep(c, q, q');
    }
  }

  /**
   * `Math.floor(a / c + g)` for an integer `g`: adding a whole number to the
   * quotient before flooring adds it to the floor.
   */
  lemma DivPlusMultiple(a: int, g: int, c: int)
    requires c > 0
    ensures (a + g * c) / c == a / c + g
  {
    var q, r := a / c, a % c;
    assert a == c * q + r;
    assert a + g * c == c * (q + g) + r;
    DivUnique(a + g * c, c, q + g, r);
  }

  predicate IsDigit(c: char) { '0' <= c <= '9' }
  predicate IsUpper(c: char) { 'A' <= c <= 'Z' }
  predicate IsLower(c: char) { 'a' <= c <= 'z' }

  /** LineTerminator of ECMAScript: LF, CR, LS, PS. */
  predicate IsLineTerminator(c: char) {
    c == '\n' || c == '\r' || c == '\U{2028}' || c == '\U{2029}'
  }

  /** WhiteSpace or LineTerminator of ECMAScript: what `trim` strips and `\s` matches. */
  predicate IsWhitespace(c: char) {
    || c == '\t' || c == '\U{000B}' || c == '\U{000C}' || c == ' '
    || c == '\U{00A0}' || c == '\U{1680}' || ('\U{2000}' <= c <= '\U{200A}')
    || c == '\U{202F}' || c == '\U{205F}' || c == '\U{3000}' || c == '\U{FEFF}'
    || IsLineTerminator(c)
  }

  predicate AllWhitespace(s: string) {
    forall i :: 0 <= i < |s| ==> IsWhitespace(s[i])
  }

  /** `String.prototype.trimStart`. */
  function TrimStart(s: string): (r: string)
    ensures |r| <= |s|
    ensures r == [] || !IsWhitespace(r[0])
  {
    if s != [] && IsWhitespace(s[0]) then TrimStart(s[1..]) else s
  }

  /** What `trimStart` keeps is the end of the text. */
  lemma {:induction false} TrimStartSuffix(s: string)
    ensures TrimStart(s) == s[|s| - |TrimStart(s)|..]
  {
    if s != [] && IsWhitespace(s[0]) {
      TrimStartSuffix(s[1..]);
      assert s[1..][|s| - 1 - |TrimStart(s)|..] == s[|s| - |TrimStart(s)|..];
    }
  }

  /** What `trimStart` removes is whitespace. */
  lemma {:induction false} TrimStartRemovesWhitespace(s: string)
    ensures AllWhitespace(s[..|s| - |TrimStart(s)|])
  {
    if s != [] && IsWhitespace(s[0]) {
      TrimStartRemovesWhitespace(s[1..]);
      var k := |s| - |TrimStart(s)|;
      forall i | 0 <= i < k ensures IsWhitespace(s[..k][i]) {
        if i > 0 {
          assert s[..k][i] == s[1..][..k - 1][i - 1];
        }
      }
    }
  }

  /** `String.prototype.trim`: the text between the leading and the trailing whitespace. */
  function Trim(s: string): (r: string)
    ensures |r| <= |s|
    ensures r == [] || (!IsWhitespace(r[0]) && !IsWhitespace(r[|r| - 1]))
  {
    if s == [] then []
    else if IsWhitespace(s[0]) then Trim(s[1..])
    else if IsWhitespace(s[|s| - 1]) then Trim(s[..|s| - 1])
    else s
  }

  /** How many characters `trim` removes from the front. */
  function TrimOffset(s: string): nat {
    if s == [] then 0
    else if IsWhitespace(s[0]) then 1 + TrimOffset(s[1..])
    else if IsWhitespace(s[|s| - 1]) then TrimOffset(s[..|s| - 1])
    else 0
  }

  /** The trimmed text is a slice of the original with only whitespace around it. */
  lemma TrimSlice(s: string)
    ensures TrimOffset(s) + |Trim(s)| <= |s|
    ensures Trim(s) == s[TrimOffset(s)..TrimOffset(s) + |Trim(s)|]
    ensures AllWhitespace(s[..TrimOffset(s)])
    ensures AllWhitespace(s[TrimOffset(s) + |Trim(s)|..])
  {
    TrimIsSlice(s);
    TrimLeading(s);
    TrimTrailing(s);
  }

  lemma {:induction false} TrimIsSlice(s: string)
    ensures TrimOffset(s) + |Trim(s)| <= |s|
    ensures Trim(s) == s[TrimOffset(s)..TrimOffset(s) + |Trim(s)|]
  {
    if s == [] {
    } else if IsWhitespace(s[0]) {
      TrimIsSlice(s[1..]);
      TrimIsSliceFront(s);
    } else if IsWhitespace(s[|s| - 1]) {
      TrimIsSlice(s[..|s| - 1]);
      TrimIsSliceBack(s);
    }
  }

  lemma TrimIsSliceFront(s: string)
    requires s != [] && IsWhitespace(s[0])
    requires var t := s[1..]; TrimOffset(t) + |Trim(t)| <= |t| && Trim(t) == t[TrimOffset(t)..TrimOffset(t) + |Trim(t)|]
    ensures TrimOffset(s) + |Trim(s)| <= |s|
    ensures Trim(s) == s[TrimOffset(s)..TrimOffset(s) + |Trim(s)|]
  {
    var tail := s[1..];
    assert Trim(s) == Trim(tail) && TrimOffset(s) == TrimOffset(tail) + 1;
    SliceOfTail(s, TrimOffset(tail), |Trim(tail)|);
  }

  lemma TrimIsSliceBack(s: string)
    requires s != [] && !IsWhitespace(s[0]) && IsWhitespace(s[|s| - 1])
    requires var t := s[..|s| - 1]; TrimOffset(t) + |Trim(t)| <= |t| && Trim(t) == t[TrimOffset(t)..TrimOffset(t) + |Trim(t)|]
    ensures TrimOffset(s) + |Trim(s)| <= |s|
    ensures Trim(s) == s[TrimOffset(s)..TrimOffset(s) + |Trim(s)|]
  {
    var init := s[..|s| - 1];
    assert Trim(s) == Trim(init) && TrimOffset(s) == TrimOffset(init);
    SliceOfInit(s, TrimOffset(init), |Trim(init)|);
  }

  lemma SliceOfTail<T>(s: seq<T>, j: nat, n: nat)
    requires 1 + j + n <= |s|
    ensures s[1..][j..j + n] == s[j + 1..j + 1 + n]
  {
  }

  lemma SliceOfInit<T>(s: seq<T>, j: nat, n: nat)
    requires j + n < |s|
    ensures s[..|s| - 1][j..j + n] == s[j..j + n]
  {
  }

  /** What `trim` removes from the front is whitespace. */
  lemma {:induction false} TrimLeading(s: string)
    ensures TrimOffset(s) <= |s| && AllWhitespace(s[..TrimOffset(s)])
  {
    TrimIsSlice(s);
    if s == [] {
    } else if IsWhitespace(s[0]) {
      var tail := s[1..];
      TrimLeading(tail);
      var j := TrimOffset(tail);
      WhitespaceConcat([s[0]], tail[..j]);
      WhitespaceSame([s[0]] + tail[..j], s[..j + 1]);
    } else if IsWhitespace(s[|s| - 1]) {
      var init := s[..|s| - 1];
      TrimLeading(init);
      var j := TrimOffset(init);
      WhitespaceSame(init[..j], s[..j]);
    }
  }

  /** What `trim` removes from the back is whitespace. */
  lemma {:induction false} TrimTrailing(s: string)
    ensures TrimOffset(s) + |Trim(s)| <= |s| && AllWhitespace(s[TrimOffset(s) + |Trim(s)|..])
  {
    TrimIsSlice(s);
    if s == [] {
    } else if IsWhitespace(s[0]) {
      var tail := s[1..];
      TrimTrailing(tail);
      var k := TrimOffset(tail) + |Trim(tail)|;
      WhitespaceSame(tail[k..], s[k + 1..]);
    } else if IsWhitespace(s[|s| - 1]) {
      var init := s[..|s| - 1];
      TrimTrailing(init);
      var k := TrimOffset(init) + |Trim(init)|;
      WhitespaceConcat(init[k..], [s[|s| - 1]]);
      WhitespaceSame(init[k..] + [s[|s| - 1]], s[k..]);
    }
  }

  lemma WhitespaceConcat(a: string, b: string)
    requires AllWhitespace(a) && AllWhitespace(b)
    ensures AllWhitespace(a + b)
  {
    assert forall k :: |a| <= k < |a + b| ==> (a + b)[k] == b[k - |a|];
  }

  /** Blankness carries over to an equal text. */
  lemma WhitespaceSame(a: string, b: string)
    requires AllWhitespace(a) && a == b
    ensures AllWhitespace(b)
  {
  }

  /** Trimming a string that neither starts nor ends with whitespace leaves it as it is. */
  lemma TrimOfTrimmed(s: string)
    requires s == [] || (!IsWhitespace(s[0]) && !IsWhitespace(s[|s| - 1]))
    ensures Trim(s) == s
  {
  }

  /** Trimming leaves nothing exactly when the text is all whitespace. */
  lemma {:induction false} TrimEmptyIffBlank(s: string)
    ensures Trim(s) == [] <==> AllWhitespace(s)
  {
    if s == [] {
    } else if IsWhitespace(s[0]) {
      TrimEmptyIffBlank(s[1..]);
      assert AllWhitespace(s) <==> AllWhitespace(s[1..]) by {
        if AllWhitespace(s[1..]) {
          forall k | 0 < k < |s| ensures IsWhitespace(s[k]) {
            assert s[k] == s[1..][k - 1];
          }
        }
      }
    } else if IsWhitespace(s[|s| - 1]) {
      var init := s[..|s| - 1];
      assert |s| >= 2 && init[0] == s[0];
      TrimEmptyIffBlank(init);
    }
  }

  /** `s` has `sub` at position `i`. */
  predicate OccursAt(s: string, sub: string, i: int) {
    0 <= i && i + |sub| <= |s| && s[i..i + |sub|] == sub
  }

  /** `String.prototype.indexOf(sub, from)`, None for -1. */
  function IndexOfFrom(s: string, sub: string, from: nat): (r: Option<nat>)
    requires from <= |s|
    ensures r.Some? ==> from <= r.value && OccursAt(s, sub, r.value)
    ensures r.Some? ==> forall j :: from <= j < r.value ==> !OccursAt(s, sub, j)
    ensures r.None? ==> forall j :: from <= j ==> !OccursAt(s, sub, j)
    decreases |s| - from
  {
    if from + |sub| > |s| then None
    else if s[from..from + |sub|] == sub then Some(from)
    else if from == |s| then None
    else IndexOfFrom(s, sub, from + 1)
  }

  function IndexOf(s: string, sub: string): (r: Option<nat>)
    ensures r.Some? ==> OccursAt(s, sub, r.value)
    ensures r.Some? ==> forall j :: 0 <= j < r.value ==> !OccursAt(s, sub, j)
    ensures r.None? ==> forall j :: !OccursAt(s, sub, j)
  {
    IndexOfFrom(s, sub, 0)
  }

  /** `String.prototype.includes`. */
  predicate Contains(s: string, sub: string) {
    IndexOf(s, sub).Some?
  }

  /** `String.prototype.startsWith`. */
  predicate StartsWith(s: string, prefix: string) {
    |prefix| <= |s| && s[..|prefix|] == prefix
  }

  /** `String.prototype.split(sep)` for a non-empty separator. */
  function Split(s: string, sep: string): (parts: seq<string>)
    requires sep != []
    ensures |parts| >= 1
    decreases |s|
  {
    match IndexOf(s, sep)
    case None => [s]
    case Some(i) => [s[..i]] + Split(s[i + |sep|..], sep)
  }

  /** No part of a split contains the separator. */
  lemma {:induction false} SplitPartsFree(s: string, sep: string)
    requires sep != []
    ensures forall i :: 0 <= i < |Split(s, sep)| ==> !Contains(Split(s, sep)[i], sep)
    decreases |s|
  {
    match IndexOf(s, sep)
    case None =>
    case Some(i) =>
      FirstOccurrencePrefix(s, sep, i);
      SplitPartsFree(s[i + |sep|..], sep);
  }

  /** The text before the first occurrence of `sep` does not contain `sep`. */
  lemma FirstOccurrencePrefix(s: string, sep: string, i: nat)
    requires sep != [] && i <= |s|
    requires forall j :: 0 <= j < i ==> !OccursAt(s, sep, j)
    ensures !Contains(s[..i], sep)
  {
    var head := s[..i];
    forall j: int ensures !OccursAt(head, sep, j) {
      if OccursAt(head, sep, j) {
        assert j < i;
        assert s[j..j + |sep|] == head[j..j + |sep|];
        assert OccursAt(s, sep, j);
      }
    }
  }

  /** `Array.prototype.join(sep)`. */
  function Join(parts: seq<string>, sep: string): string {
    if parts == [] then []
    else if |parts| == 1 then parts[0]
    else parts[0] + sep + Join(parts[1..], sep)
  }

  /** Splitting and joining again on the same separator gives back the string. */
  lemma {:induction false} JoinSplit(s: string, sep: string)
    requires sep != []
    ensures Join(Split(s, sep), sep) == s
    decreases |s|
  {
    match IndexOf(s, sep)
    case None =>
    case Some(i) =>
      var rest := s[i + |sep|..];
      var tail := Split(rest, sep);
      JoinSplit(rest, sep);
      SplitAtFirst(s, sep, i);
      JoinCons(s[..i], tail, sep);
      assert s == s[..i] + sep + rest;
  }

  /** A split cuts at the first occurrence of the separator. */
  lemma SplitAtFirst(s: string, sep: string, i: nat)
    requires sep != [] && IndexOf(s, sep) == Some(i)
    ensures Split(s, sep) == [s[..i]] + Split(s[i + |sep|..], sep)
  {
  }

  /** Joining a head before at least one more part puts a separator after it. */
  lemma JoinCons(head: string, tail: seq<string>, sep: string)
    requires tail != []
    ensures Join([head] + tail, sep) == head + sep + Join(tail, sep)
  {
    assert ([head] + tail)[1..] == tail;
  }

  /**
   * Joining parts that do not contain a one-character separator and
   * splitting again gives back the parts.
   */
  lemma {:induction false} SplitJoin(parts: seq<string>, sep: string)
    requires |sep| == 1 && |parts| >= 1
    requires forall i :: 0 <= i < |parts| ==> !Contains(parts[i], sep)
    ensures Split(Join(parts, sep), sep) == parts
    decreases |parts|
  {
    var head := parts[0];
    if |parts| == 1 {
      SplitNoSeparator(head, sep);
    } else {
      var rest := Join(parts[1..], sep);
      var s := head + sep + rest;
      assert Join(parts, sep) == s;
      assert OccursAt(s, sep, |head|) by {
        assert s[|head|..|head| + 1] == sep;
      }
      forall j | 0 <= j < |head| ensures !OccursAt(s, sep, j) {
        if OccursAt(s, sep, j) {
          assert s[j..j + 1] == head[j..j + 1];
          assert OccursAt(head, sep, j);
        }
      }
      var i := IndexOf(s, sep);
      assert i == Some(|head|);
      assert s[..|head|] == head && s[|head| + 1..] == rest;
      SplitJoin(parts[1..], sep);
      assert Split(s, sep) == [head] + parts[1..];
    }
  }

  /** A string without the separator splits into itself alone. */
  lemma SplitNoSeparator(s: string, sep: string)
    requires sep != [] && !Contains(s, sep)
    ensures Split(s, sep) == [s]
  {
  }

  function LowerChar(c: char): char {
    if IsUpper(c) then (c as int + 32) as char else c
  }

  function UpperChar(c: char): char {
    if IsLower(c) then (c as int - 32) as char else c
  }

  /** `String.prototype.toLowerCase`, on ASCII letters. */
  function ToLower(s: string): (r: string)
    ensures |r| == |s|
    ensures forall i :: 0 <= i < |s| ==> r[i] == LowerChar(s[i])
  {
    if s == [] then [] else [LowerChar(s[0])] + ToLower(s[1..])
  }

  function DigitChar(d: nat): char
    requires d < 10
  {
    ('0' as int + d) as char
  }

  function DigitValue(c: char): nat
    requires IsDigit(c)
  {
    c as int - '0' as int
  }

  /** The decimal digits of a non-negative integer, as `String(n)` writes them. */
  function NatToString(n: nat): (r: string)
    ensures |r| >= 1
    ensures forall i :: 0 <= i < |r| ==> IsDigit(r[i])
    ensures r[0] == '0' ==> n == 0 && r == "0"
  {
    if n < 10 then [DigitChar(n)] else NatToString(n / 10) + [DigitChar(n % 10)]
  }

  /** `String(i)` for an integer. */
  function IntToString(i: int): string {
    if i < 0 then "-" + NatToString(-i) else NatToString(i)
  }

  /** The value of a string of decimal digits. */
  function DecimalValue(ds: string): nat
    requires forall i :: 0 <= i < |ds| ==> IsDigit(ds[i])
  {
    if ds == [] then 0 else DecimalValue(ds[..|ds| - 1]) * 10 + DigitValue(ds[|ds| - 1])
  }

  predicate IsHexDigit(c: char) {
    IsDigit(c) || ('a' <= c <= 'f') || ('A' <= c <= 'F')
  }

  function HexDigitValue(c: char): nat
    requires IsHexDigit(c)
  {
    if IsDigit(c) then DigitValue(c)
    else if 'a' <= c <= 'f' then c as int - 'a' as int + 10
    else c as int - 'A' as int + 10
  }

  function HexValue(ds: string): nat
    requires forall i :: 0 <= i < |ds| ==> IsHexDigit(ds[i])
  {
    if ds == [] then 0 else HexValue(ds[..|ds| - 1]) * 16 + HexDigitValue(ds[|ds| - 1])
  }

  /** The longest prefix of `s` made of decimal digits. */
  function DigitPrefix(s: string): (r: string)
    ensures |r| <= |s|
    ensures forall i :: 0 <= i < |r| ==> IsDigit(r[i])
  {
    if s != [] && IsDigit(s[0]) then [s[0]] + DigitPrefix(s[1..]) else []
  }

  /** The digit run is a prefix of the text, and no digit follows it. */
  lemma {:induction false} DigitPrefixLongest(s: string)
    ensures DigitPrefix(s) == s[..|DigitPrefix(s)|]
    ensures |DigitPrefix(s)| < |s| ==> !IsDigit(s[|DigitPrefix(s)|])
  {
    if s != [] && IsDigit(s[0]) {
      DigitPrefixLongest(s[1..]);
      assert s[..|DigitPrefix(s)|] == [s[0]] + s[1..][..|DigitPrefix(s[1..])|];
    }
  }

  /** The longest prefix of `s` made of hexadecimal digits. */
  function HexPrefix(s: string): (r: string)
    ensures |r| <= |s|
    ensures forall i :: 0 <= i < |r| ==> IsHexDigit(r[i])
  {
    if s != [] && IsHexDigit(s[0]) then [s[0]] + HexPrefix(s[1..]) else []
  }

  /** The hexadecimal run is a prefix of the text, and no hexadecimal digit follows it. */
  lemma {:induction false} HexPrefixLongest(s: string)
    ensures HexPrefix(s) == s[..|HexPrefix(s)|]
    ensures |HexPrefix(s)| < |s| ==> !IsHexDigit(s[|HexPrefix(s)|])
  {
    if s != [] && IsHexDigit(s[0]) {
      HexPrefixLongest(s[1..]);
      assert s[..|HexPrefix(s)|] == [s[0]] + s[1..][..|HexPrefix(s[1..])|];
    }
  }

  /**
   * `parseInt(s)` with no radix: leading whitespace is skipped, one sign is
   * read, a `0x`/`0X` prefix switches to base 16, and the longest run of
   * digits that follows is the value; no digit at all gives NaN.
   */
  function ParseInt(s: string): Num {
    var t := TrimStart(s);
    var negative := t != [] && t[0] == '-';
    var body := if t != [] && (t[0] == '-' || t[0] == '+') then t[1..] else t;
    var magnitude :=
      if |body| >= 2 && body[0] == '0' && (body[1] == 'x' || body[1] == 'X') then
        var ds := HexPrefix(body[2..]);
        if ds == [] then NaN else Int(HexValue(ds))
      else
        var ds := DigitPrefix(body);
        if ds == [] then NaN else Int(DecimalValue(ds));
    match magnitude
    case NaN => NaN
    case Int(m) => Int(if negative then -m else m)
  }

  lemma {:induction false} DecimalValueOfNatToString(n: nat)
    ensures DecimalValue(NatToString(n)) == n
  {
    if n >= 10 {
      DecimalValueOfNatToString(n / 10);
      var s := NatToString(n);
      assert s[..|s| - 1] == NatToString(n / 10);
    }
  }

  lemma DigitPrefixOfDigits(s: string)
    requires forall i :: 0 <= i < |s| ==> IsDigit(s[i])
    ensures DigitPrefix(s) == s
  {
  }

  /** `parseInt(String(n)) === n`: the decimal rendering reads back as the same number. */
  lemma ParseIntNatToString(n: nat)
    ensures ParseInt(NatToString(n)) == Int(n)
  {
    var s := NatToString(n);
    ParseIntOfDigits(s);
    DecimalValueOfNatToString(n);
  }

  /** A non-empty run of decimal digits is read as its decimal value. */
  lemma ParseIntOfDigits(s: string)
    requires s != [] && forall i :: 0 <= i < |s| ==> IsDigit(s[i])
    ensures ParseInt(s) == Int(DecimalValue(s))
  {
    assert TrimStart(s) == s by { assert !IsWhitespace(s[0]); }
    assert |s| >= 2 ==> IsDigit(s[1]);
    ParseIntUnsigned(s);
    DigitPrefixOfDigits(s);
  }

  /** With no leading whitespace, sign or `0x`, `parseInt` reads the leading decimal digits. */
  lemma ParseIntUnsigned(t: string)
    requires t != [] && TrimStart(t) == t && IsDigit(t[0])
    requires |t| >= 2 ==> t[1] != 'x' && t[1] != 'X'
    ensures DigitPrefix(t) != [] && ParseInt(t) == Int(DecimalValue(DigitPrefix(t)))
  {
  }

  // ---------------------------------------------------------------------
  // Array idioms
  // ---------------------------------------------------------------------

  predicate NoDuplicates(xs: seq<string>) {
    forall i, j :: 0 <= i < j < |xs| ==> xs[i] != xs[j]
  }

  /** `if (!xs.includes(x)) xs.push(x)`. */
  function AppendAbsent(xs: seq<string>, x: string): (r: seq<string>)
    ensures x in r
    ensures forall y :: y in r <==> y in xs || y == x
    ensures NoDuplicates(xs) ==> NoDuplicates(r)
  {
    if x in xs then xs else xs + [x]
  }

  /** Adding an element that is already there changes nothing. */
  lemma AppendAbsentIdempotent(xs: seq<string>, x: string)
    ensures AppendAbsent(AppendAbsent(xs, x), x) == AppendAbsent(xs, x)
  {
  }

  /** `xs.filter(x => !excluded.includes(x))`. */
  function Exclude(xs: seq<string>, excluded: seq<string>): (r: seq<string>)
    ensures |r| <= |xs|
    ensures forall y :: y in r <==> y in xs && y !in excluded
  {
    if xs == [] then []
    else
      var rest := Exclude(xs[1..], excluded);
      assert forall y :: y in xs <==> y == xs[0] || y in xs[1..];
      if xs[0] in excluded then rest else [xs[0]] + rest
  }

  /** The filter keeps the input order: it distributes over concatenation. */
  lemma {:induction false} ExcludeAppend(a: seq<string>, b: seq<string>, excluded: seq<string>)
    ensures Exclude(a + b, excluded) == Exclude(a, excluded) + Exclude(b, excluded)
  {
    if a == [] {
      assert a + b == b;
    } else {
      assert (a + b)[0] == a[0] && (a + b)[1..] == a[1..] + b;
      ExcludeAppend(a[1..], b, excluded);
    }
  }

  /** Excluding nothing that occurs keeps the whole sequence. */
  lemma {:induction false} ExcludeNone(xs: seq<string>, excluded: seq<string>)
    requires forall x :: x in xs ==> x !in excluded
    ensures Exclude(xs, excluded) == xs
  {
    if xs != [] {
      ExcludeNone(xs[1..], excluded);
    }
  }
}
