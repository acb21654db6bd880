/**
 * The JavaScript string operations the modelled code relies on, written out
 * with the semantics ECMAScript gives them: `toLowerCase` (on ASCII letters),
 * `includes`, `trim`, `split` on one character, `replace` of the first
 * occurrence, `slice(0, end)`, `parseInt(s, 16)` and the decimal rendering of
 * an integer inside a template literal.
 */
module JsText {
  import opened Base

  // ---------------------------------------------------------------- case

  /** `toLowerCase` on one character; only `A`-`Z` are mapped. */
  function LowerChar(c: char): char
  {
    if 'A' <= c <= 'Z' then (c as int + 32) as char else c
  }

  function ToLower(s: string): (r: string)
    ensures |r| == |s|
    ensures forall i :: 0 <= i < |s| ==> r[i] == LowerChar(s[i])
  {
    if s == [] then [] else [LowerChar(s[0])] + ToLower(s[1..])
  }

  // ------------------------------------------------------------ searching

  predicate IsPrefix(p: string, s: string)
  {
    |p| <= |s| && s[..|p|] == p
  }

  /** `s.includes(sub)`: tries every start position from the left. */
  predicate Includes(s: string, sub: string)
    decreases |s|
  {
    IsPrefix(sub, s) || (s != [] && Includes(s[1..], sub))
  }

  /** Reference definition of `includes`: `sub` occurs at some position of `s`. */
  ghost predicate OccursIn(sub: string, s: string)
  {
    exists i :: OccursAt(sub, s, i)
  }

  ghost predicate OccursAt(sub: string, s: string, i: int)
  {
    0 <= i <= |s| - |sub| && s[i..i + |sub|] == sub
  }

  lemma {:induction false} IncludesIff(s: string, sub: string)
    ensures Includes(s, sub) <==> OccursIn(sub, s)
    decreases |s|
  {
    if IsPrefix(sub, s) {
      assert OccursAt(sub, s, 0);
    } else if s != [] {
      IncludesIff(s[1..], sub);
      if Includes(s[1..], sub) {
        var i :| OccursAt(sub, s[1..], i);
        TailSlice(s, i, |sub|);
        assert OccursAt(sub, s, i + 1);
      }
      if OccursIn(sub, s) {
        var i :| OccursAt(sub, s, i);
        if i != 0 {
          TailSlice(s, i - 1, |sub|);
          assert OccursAt(sub, s[1..], i - 1);
        }
      }
    }
  }

  /** A slice of the tail is the slice of the string one position later. */
  lemma TailSlice(s: string, i: nat, n: nat)
    requires s != [] && i + n <= |s| - 1
    ensures s[1..][i..i + n] == s[i + 1..i + 1 + n]
  {
  }

  /** A string does not contain a string whose first character it lacks. */
  lemma {:induction false} NotIncludesFirst(s: string, sub: string)
    requires sub != [] && sub[0] !in s
    ensures !Includes(s, sub)
    decreases |s|
  {
    if s != [] {
      assert s[0] != sub[0];
      NotIncludesFirst(s[1..], sub);
    }
  }

  /** A string does not contain a longer one. */
  lemma {:induction false} NotIncludesLonger(s: string, sub: string)
    requires |sub| > |s|
    ensures !Includes(s, sub)
    decreases |s|
  {
    if s != [] {
      NotIncludesLonger(s[1..], sub);
    }
  }

  /** Position of the first `c` in `s`, or `|s|` when there is none. */
  function IndexOfChar(s: string, c: char): (i: nat)
    ensures i <= |s|
    ensures i < |s| ==> s[i] == c
    ensures forall j :: 0 <= j < i ==> s[j] != c
  {
    if s == [] then 0 else if s[0] == c then 0 else 1 + IndexOfChar(s[1..], c)
  }

  /** `s.indexOf(c, k)`: position of the first `c` at or after `k`, or `|s|` when there is none. */
  function IndexFrom(s: string, c: char, k: nat): (i: nat)
    requires k <= |s|
    ensures k <= i <= |s|
    ensures i < |s| ==> s[i] == c
    decreases |s| - k
  {
    if k == |s| || s[k] == c then k else IndexFrom(s, c, k + 1)
  }

  /** No `c` lies between `k` and the position `IndexFrom` returns. */
  lemma {:induction false} IndexFromSkips(s: string, c: char, k: nat, m: nat)
    requires k <= |s| && k <= m < IndexFrom(s, c, k)
    ensures s[m] != c
    decreases |s| - k
  {
    if k < m {
      IndexFromSkips(s, c, k + 1, m);
    }
  }

  /** The first `c` at or after `k` is the one at `k + n` when none comes before it. */
  lemma {:induction false} IndexFromAt(s: string, c: char, k: nat, n: nat)
    requires k + n < |s| && s[k + n] == c
    requires forall m :: k <= m < k + n ==> s[m] != c
    ensures IndexFrom(s, c, k) == k + n
    decreases n
  {
    if n > 0 {
      IndexFromAt(s, c, k + 1, n - 1);
    }
  }

  lemma IndexOfAbsent(s: string, c: char)
    requires c !in s
    ensures IndexOfChar(s, c) == |s|
  {
  }

  lemma IndexOfAt(p: string, c: char, rest: string)
    requires c !in p
    ensures IndexOfChar(p + [c] + rest, c) == |p|
  {
    var s := p + [c] + rest;
    assert s[|p|] == c;
    assert forall j :: 0 <= j < |p| ==> s[j] == p[j];
  }

  // ------------------------------------------------------------ splitting

  /** `s.split(sep)` for a one-character separator: never empty, and no part holds `sep`. */
  function Split(s: string, sep: char): (parts: seq<string>)
    ensures |parts| >= 1
    ensures forall k :: 0 <= k < |parts| ==> sep !in parts[k]
    decreases |s|
  {
    var i := IndexOfChar(s, sep);
    if i == |s| then [s] else [s[..i]] + Split(s[i + 1..], sep)
  }

  /** `parts.join(sep)`. */
  function Join(parts: seq<string>, sep: char): string
  {
    if parts == [] then ""
    else if |parts| == 1 then parts[0]
    else parts[0] + [sep] + Join(parts[1..], sep)
  }

  /** Splitting undoes joining parts that do not hold the separator. */
  lemma {:induction false} SplitJoin(parts: seq<string>, sep: char)
    requires |parts| >= 1
    requires forall k :: 0 <= k < |parts| ==> sep !in parts[k]
    ensures Split(Join(parts, sep), sep) == parts
  {
    if |parts| == 1 {
      IndexOfAbsent(parts[0], sep);
    } else {
      var rest := Join(parts[1..], sep);
      var s := parts[0] + [sep] + rest;
      IndexOfAt(parts[0], sep, rest);
      assert s[..|parts[0]|] == parts[0];
      assert s[|parts[0]| + 1..] == rest;
      SplitJoin(parts[1..], sep);
      assert parts == [parts[0]] + parts[1..];
    }
  }

  /** Joining undoes splitting. */
  lemma {:induction false} JoinSplit(s: string, sep: char)
    ensures Join(Split(s, sep), sep) == s
    decreases |s|
  {
    var i := IndexOfChar(s, sep);
    if i < |s| {
      var tail := s[i + 1..];
      assert Split(s, sep) == [s[..i]] + Split(tail, sep);
      JoinSplit(tail, sep);
      JoinCons(s[..i], Split(tail, sep), sep);
      assert s == s[..i] + [sep] + tail;
    }
  }

  lemma JoinCons(head: string, rest: seq<string>, sep: char)
    requires rest != []
    ensures Join([head] + rest, sep) == head + [sep] + Join(rest, sep)
  {
    assert ([head] + rest)[1..] == rest;
  }

  // ------------------------------------------------------- replace, slice

  /** `s.replace(pat, "")`: removes the first occurrence of `pat`, if any. */
  function RemoveFirst(s: string, pat: string): (r: string)
    ensures Includes(s, pat) ==> |r| + |pat| == |s|
    ensures !Includes(s, pat) ==> r == s
    decreases |s|
  {
    if IsPrefix(pat, s) then s[|pat|..]
    else if s == [] then s
    else [s[0]] + RemoveFirst(s[1..], pat)
  }

  /** End index chosen by `slice(0, end)` on a string of length `len`. */
  function SliceEnd(len: nat, end: int): (k: nat)
    ensures k <= len
  {
    if end < 0 then Max(len + end, 0) else Min(end, len)
  }

  /** `s.slice(0, end)`: a prefix of `s`, of length `min(|s|, end)` for `end >= 0`. */
  function SlicePrefix(s: string, end: int): (r: string)
    ensures IsPrefix(r, s)
    ensures 0 <= end ==> |r| == Min(|s|, end)
    ensures end < 0 ==> |r| == Max(|s| + end, 0)
  {
    s[..SliceEnd(|s|, end)]
  }

  // ----------------------------------------------------------- whitespace

  /** ECMAScript WhiteSpace and LineTerminator: what `\s` matches and `trim` removes. */
  predicate IsJsSpace(c: char)
  {
    var n := c as int;
    n == 0x09 || n == 0x0A || n == 0x0B || n == 0x0C || n == 0x0D || n == 0x20
    || n == 0xA0 || n == 0x1680 || (0x2000 <= n <= 0x200A) || n == 0x2028
    || n == 0x2029 || n == 0x202F || n == 0x205F || n == 0x3000 || n == 0xFEFF
  }

  /** `s` with its leading whitespace removed (`trimStart`). */
  function TrimStart(s: string): (r: string)
    ensures |r| <= |s| && s[|s| - |r|..] == r
    ensures r != [] ==> !IsJsSpace(r[0])
    ensures forall i :: 0 <= i < |s| - |r| ==> IsJsSpace(s[i])
  {
    if s != [] && IsJsSpace(s[0]) then TrimStart(s[1..]) else s
  }

  /** `!s || !s.trim()`: the string is empty or whitespace only. */
  predicate IsBlank(s: string)
  {
    TrimStart(s) == []
  }

  lemma BlankIff(s: string)
    ensures IsBlank(s) <==> forall i :: 0 <= i < |s| ==> IsJsSpace(s[i])
  {
    var r := TrimStart(s);
    if r != [] {
      assert s[|s| - |r|] == r[0];
    }
  }

  // ------------------------------------------------------------- decimals

  function DigitChar(d: nat): char
    requires d < 10
  {
    "0123456789"[d]
  }

  predicate IsDigits(s: string)
  {
    forall i :: 0 <= i < |s| ==> '0' <= s[i] <= '9'
  }

  /** Decimal rendering of a natural number, as a template literal prints it. */
  function NatToString(n: nat): (r: string)
    ensures |r| >= 1 && IsDigits(r)
    decreases n
  {
    if n < 10 then [DigitChar(n)] else NatToString(n / 10) + [DigitChar(n % 10)]
  }

  function IntToString(i: int): (r: string)
    ensures |r| >= 1
  {
    if i < 0 then "-" + NatToString(-i) else NatToString(i)
  }

  /** Value of a string of decimal digits. */
  function DecimalValue(s: string): nat
    requires IsDigits(s)
  {
    if s == [] then 0 else 10 * DecimalValue(s[..|s| - 1]) + (s[|s| - 1] as int - '0' as int)
  }

  lemma {:induction false} DecimalRoundTrip(n: nat)
    ensures DecimalValue(NatToString(n)) == n
    decreases n
  {
    var r := NatToString(n);
    if n >= 10 {
      DecimalRoundTrip(n / 10);
      assert r[..|r| - 1] == NatToString(n / 10);
    }
  }

  // ------------------------------------------------------------------ hex

  predicate IsHexDigit(c: char)
  {
    '0' <= c <= '9' || 'a' <= c <= 'f' || 'A' <= c <= 'F'
  }

  predicate IsHexDigits(s: string)
  {
    forall i :: 0 <= i < |s| ==> IsHexDigit(s[i])
  }

  function HexDigitValue(c: char): (v: nat)
    requires IsHexDigit(c)
    ensures v < 16
  {
    if '0' <= c <= '9' then c as int - '0' as int
    else if 'a' <= c <= 'f' then c as int - 'a' as int + 10
    else c as int - 'A' as int + 10
  }

  /** Value of a string of hexadecimal digits, most significant first. */
  function HexValue(s: string): nat
    requires IsHexDigits(s)
  {
    if s == [] then 0 else 16 * HexValue(s[..|s| - 1]) + HexDigitValue(s[|s| - 1])
  }

  /** Length of the longest prefix of `s` made of hexadecimal digits. */
  function HexRun(s: string): (n: nat)
    ensures n <= |s| && IsHexDigits(s[..n])
    ensures n < |s| ==> !IsHexDigit(s[n])
  {
    if s != [] && IsHexDigit(s[0]) then 1 + HexRun(s[1..]) else 0
  }

  /** `parseInt(s, 16)`; `None` stands for `NaN`. */
  function ParseIntHex(s: string): Option<int>
  {
    ParseSignedHex(TrimStart(s))
  }

  /** An optional sign, then the unsigned part. */
  function ParseSignedHex(t: string): Option<int>
  {
    if t != [] && t[0] == '-' then
      match ParseUnsignedHex(t[1..])
      case None => None
      case Some(x) => Some(-x)
    else if t != [] && t[0] == '+' then ParseUnsignedHex(t[1..])
    else ParseUnsignedHex(t)
  }

  /** An optional `0x`/`0X` prefix, then the longest run of hex digits. */
  function ParseUnsignedHex(u: string): Option<int>
  {
    var v := if |u| >= 2 && u[0] == '0' && (u[1] == 'x' || u[1] == 'X') then u[2..] else u;
    var n := HexRun(v);
    if n == 0 then None else Some(HexValue(v[..n]))
  }

  lemma HexRunAll(s: string)
    requires IsHexDigits(s)
    ensures HexRun(s) == |s|
  {
  }

  /** A non-empty string of hex digits parses to its value. */
  lemma ParseIntHexDigits(s: string)
    requires s != [] && IsHexDigits(s)
    ensures ParseIntHex(s) == Some(HexValue(s))
  {
    HexDigitIsPlain(s[0]);
    assert TrimStart(s) == s;
    assert ParseIntHex(s) == ParseUnsignedHex(s);
    if |s| >= 2 {
      HexDigitIsPlain(s[1]);
    }
    HexRunAll(s);
    assert s[..|s|] == s;
  }

  /** A hex digit is neither whitespace, a sign nor the `x` of a `0x` prefix. */
  lemma HexDigitIsPlain(c: char)
    requires IsHexDigit(c)
    ensures !IsJsSpace(c) && c != '-' && c != '+' && c != 'x' && c != 'X'
  {
  }

  /** The lowercase hex digit of `d`. */
  function HexChar(d: nat): (c: char)
    requires d < 16
    ensures IsHexDigit(c) && HexDigitValue(c) == d
  {
    if d < 10 then ('0' as int + d) as char else ('a' as int + d - 10) as char
  }

  function Pow16(w: nat): (p: nat)
    ensures p >= 1
  {
    if w == 0 then 1 else 16 * Pow16(w - 1)
  }

  /** The `w` lowercase hex digits of `v`, zero-padded (CSS colour notation for `w == 6`). */
  function ToHex(v: nat, w: nat): (s: string)
    ensures |s| == w && IsHexDigits(s)
  {
    if w == 0 then "" else ToHex(v / 16, w - 1) + [HexChar(v % 16)]
  }

  lemma {:induction false} HexRoundTrip(v: nat, w: nat)
    requires v < Pow16(w)
    ensures HexValue(ToHex(v, w)) == v
  {
    if w > 0 {
      var s := ToHex(v, w);
      var q, r := v / 16, v % 16;
      assert v == 16 * q + r;
      assert q < Pow16(w - 1);
      HexRoundTrip(q, w - 1);
      assert s[..|s| - 1] == ToHex(q, w - 1);
      assert s[|s| - 1] == HexChar(r);
    }
  }
}
