/** The Python string operations the reader library relies on, with Python's semantics:
    `in`, `startswith`, slices with negative bounds, indexing that can fail, single-character
    `split`, `join`, ASCII case mapping, `strip`, `int(s)`, `int(s, 16)`, `str(i)` and
    `f"{i:0wX}"`. */
module Text {
  import opened Results

  // ---------------------------------------------------------------- substrings

  predicate OccursAt(s: string, sub: string, i: nat)
  {
    i + |sub| <= |s| && s[i..i + |sub|] == sub
  }

  /** Python's `sub in s`. */
  predicate Contains(s: string, sub: string)
  {
    exists i: nat | i <= |s| :: OccursAt(s, sub, i)
  }

  /** Python's `s.startswith(p)`. */
  predicate StartsWith(s: string, p: string)
  {
    |p| <= |s| && s[..|p|] == p
  }

  /** Concatenation regrouped; stated once so that proofs about growing logs stay small. */
  lemma ConcatAssoc<T>(a: seq<T>, b: seq<T>, c: seq<T>)
    ensures (a + b) + c == a + (b + c)
  {
  }

  lemma ContainsSelf(s: string, sub: string)
    requires StartsWith(s, sub)
    ensures Contains(s, sub)
  {
    assert OccursAt(s, sub, 0);
  }

  lemma ContainsAppend(s: string, t: string, sub: string)
    requires Contains(t, sub)
    ensures Contains(s + t, sub)
  {
    var i: nat :| i <= |t| && OccursAt(t, sub, i);
    assert (s + t)[|s| + i..|s| + i + |sub|] == t[i..i + |sub|];
    assert OccursAt(s + t, sub, |s| + i);
  }

  lemma ContainsPrepend(s: string, t: string, sub: string)
    requires Contains(s, sub)
    ensures Contains(s + t, sub)
  {
    var i: nat :| i <= |s| && OccursAt(s, sub, i);
    assert (s + t)[i..i + |sub|] == s[i..i + |sub|];
    assert OccursAt(s + t, sub, i);
  }

  lemma ContainsEmpty(s: string)
    ensures Contains(s, "")
  {
    assert OccursAt(s, "", 0);
  }

  lemma NotContainsShort(s: string, sub: string)
    requires |s| < |sub|
    ensures !Contains(s, sub)
  {
  }

  /** A text lacking some character of `sub` does not contain `sub`. */
  lemma NotContainsChar(s: string, sub: string, j: nat)
    requires j < |sub| && sub[j] !in s
    ensures !Contains(s, sub)
  {
    forall i: nat | i <= |s|
      ensures !OccursAt(s, sub, i)
    {
      if i + |sub| <= |s| {
        assert s[i..i + |sub|][j] == s[i + j];
      }
    }
  }

  // ---------------------------------------------------------------- slices and indexing

  /** A Python slice bound `i` clamped against length `n`. */
  function Bound(i: int, n: nat): (b: nat)
    ensures b <= n
    ensures 0 <= i <= n ==> b == i
    ensures -(n as int) <= i < 0 ==> b as int == n as int + i
  {
    if i < 0 then (if i + n < 0 then 0 else i + n) else if i > n then n else i
  }

  /** Python's `s[a:b]`: never fails, may be short or empty. */
  function Slice(s: string, a: int, b: int): (r: string)
    ensures |r| <= |s|
    ensures 0 <= a <= b <= |s| ==> r == s[a..b]
  {
    var i, j := Bound(a, |s|), Bound(b, |s|);
    if i <= j then s[i..j] else ""
  }

  /** Python's `s[a:]`. */
  function From(s: string, a: int): (r: string)
    ensures 0 <= a <= |s| ==> r == s[a..]
  {
    Slice(s, a, |s|)
  }

  /** Python's `s[i]`: `None` stands for the IndexError. */
  function At(s: string, i: int): (r: Option<char>)
    ensures r.Some? <==> -|s| <= i < |s|
    ensures 0 <= i < |s| ==> r == Some(s[i])
  {
    if 0 <= i < |s| then Some(s[i]) else if -|s| <= i < 0 then Some(s[|s| + i]) else None
  }

  /** Python's `s[i] == c` where an out-of-range index raises IndexError (`None`). */
  function CharIs(s: string, i: nat, c: char): (r: Option<bool>)
    ensures r.Some? <==> i < |s|
    ensures r == Some(true) <==> i < |s| && s[i] == c
  {
    if i < |s| then Some(s[i] == c) else None
  }

  /** Python's `s.rindex(c)`: the last position of `c`; `None` stands for the ValueError. */
  function RIndex(s: string, c: char): (r: Option<nat>)
    ensures r.Some? ==> r.value < |s| && s[r.value] == c
    ensures r.Some? ==> forall k :: r.value < k < |s| ==> s[k] != c
    ensures r.None? ==> forall k :: 0 <= k < |s| ==> s[k] != c
  {
    if |s| == 0 then None
    else if s[|s| - 1] == c then Some(|s| - 1)
    else RIndex(s[..|s| - 1], c)
  }

  // ---------------------------------------------------------------- split and join

  /** Python's `parts.join(sep)` with a string separator. */
  function Join(parts: seq<string>, sep: string): (r: string)
  {
    if |parts| == 0 then ""
    else if |parts| == 1 then parts[0]
    else parts[0] + sep + Join(parts[1..], sep)
  }

  /** Python's `s.split(c)` for a one-character separator: always at least one piece. */
  function Split(s: string, c: char): (r: seq<string>)
    ensures |r| >= 1
    decreases |s|
  {
    if |s| == 0 then [""]
    else
      var rest := Split(s[1..], c);
      if s[0] == c then [""] + rest else [[s[0]] + rest[0]] + rest[1..]
  }

  /** Joining the pieces of a split with the separator gives back the original text. */
  lemma {:induction false} JoinSplit(s: string, c: char)
    ensures Join(Split(s, c), [c]) == s
    decreases |s|
  {
    if |s| > 0 {
      JoinSplit(s[1..], c);
      var rest := Split(s[1..], c);
      if s[0] == c {
        assert Split(s, c) == [""] + rest;
        assert ([""] + rest)[1..] == rest;
      } else {
        var r := Split(s, c);
        assert r == [[s[0]] + rest[0]] + rest[1..];
        if |rest| == 1 {
          assert r == [[s[0]] + rest[0]];
        } else {
          assert r[1..] == rest[1..];
          assert Join(rest, [c]) == rest[0] + [c] + Join(rest[1..], [c]);
        }
      }
    }
  }

  /** No piece of a split contains the separator. */
  lemma {:induction false} SplitPiecesFree(s: string, c: char)
    ensures forall k :: 0 <= k < |Split(s, c)| ==> c !in Split(s, c)[k]
    decreases |s|
  {
    if |s| > 0 {
      SplitPiecesFree(s[1..], c);
    }
  }

  /** A text without the separator splits into itself alone. */
  lemma {:induction false} SplitFree(s: string, c: char)
    requires c !in s
    ensures Split(s, c) == [s]
    decreases |s|
  {
    if |s| > 0 {
      assert c !in s[1..];
      SplitFree(s[1..], c);
      assert [s[0]] + s[1..] == s;
    }
  }

  /** Splitting `a + [c] + b` splits `a` (known to be separator-free) off at the front. */
  lemma {:induction false} SplitCons(a: string, c: char, b: string)
    requires c !in a
    ensures Split(a + [c] + b, c) == [a] + Split(b, c)
    decreases |a|
  {
    if |a| == 0 {
      assert a + [c] + b == [c] + b;
      assert ([c] + b)[1..] == b;
    } else {
      assert (a + [c] + b)[1..] == a[1..] + [c] + b;
      assert c !in a[1..];
      SplitCons(a[1..], c, b);
      assert [a[0]] + a[1..] == a;
    }
  }

  /** Splitting the join of separator-free pieces gives the pieces back. */
  lemma {:induction false} SplitJoin(parts: seq<string>, c: char)
    requires |parts| >= 1
    requires forall k :: 0 <= k < |parts| ==> c !in parts[k]
    ensures Split(Join(parts, [c]), c) == parts
    decreases |parts|
  {
    if |parts| == 1 {
      SplitFree(parts[0], c);
    } else {
      SplitJoin(parts[1..], c);
      SplitCons(parts[0], c, Join(parts[1..], [c]));
      assert [parts[0]] + parts[1..] == parts;
    }
  }

  lemma JoinThree(a: string, b: string, d: string, sep: string)
    ensures Join([a, b, d], sep) == a + sep + b + sep + d
  {
    assert [a, b, d][1..] == [b, d] && [b, d][1..] == [d];
    assert Join([b, d], sep) == b + sep + d;
  }

  // ---------------------------------------------------------------- case and whitespace

  function LowerChar(c: char): char
  {
    if 'A' <= c <= 'Z' then (c as int + 32) as char else c
  }

  function UpperChar(c: char): char
  {
    if 'a' <= c <= 'z' then (c as int - 32) as char else c
  }

  /** Python's `s.lower()`, restricted to ASCII letters. */
  function Lower(s: string): (r: string)
    ensures |r| == |s|
    ensures forall k :: 0 <= k < |s| ==> r[k] == LowerChar(s[k])
  {
    if |s| == 0 then "" else [LowerChar(s[0])] + Lower(s[1..])
  }

  /** Python's `s.upper()`, restricted to ASCII letters. */
  function Upper(s: string): (r: string)
    ensures |r| == |s|
    ensures forall k :: 0 <= k < |s| ==> r[k] == UpperChar(s[k])
  {
    if |s| == 0 then "" else [UpperChar(s[0])] + Upper(s[1..])
  }

  predicate IsSpace(c: char)
  {
    c == ' ' || c == '\t' || c == '\n' || c == '\r' || c as int == 11 || c as int == 12
  }

  /** Python's `s.strip()` for ASCII whitespace. */
  function Strip(s: string): (r: string)
    ensures |r| <= |s|
    ensures |r| > 0 ==> !IsSpace(r[0]) && !IsSpace(r[|r| - 1])
    ensures Contains(s, r)
    decreases |s|
  {
    if |s| == 0 then (ContainsEmpty(s); "")
    else if IsSpace(s[0]) then (var r := Strip(s[1..]); ContainsAppend([s[0]], s[1..], r); assert [s[0]] + s[1..] == s; r)
    else if IsSpace(s[|s| - 1]) then (var r := Strip(s[..|s| - 1]); ContainsPrepend(s[..|s| - 1], [s[|s| - 1]], r); assert s[..|s| - 1] + [s[|s| - 1]] == s; r)
    else (assert OccursAt(s, s, 0); s)
  }

  // ---------------------------------------------------------------- numbers

  /** The value of a digit in bases up to 16, either case. */
  function DigitValue(c: char): (r: Option<nat>)
    ensures r.Some? ==> r.value < 16
  {
    if '0' <= c <= '9' then Some(c as int - '0' as int)
    else if 'a' <= c <= 'f' then Some(c as int - 'a' as int + 10)
    else if 'A' <= c <= 'F' then Some(c as int - 'A' as int + 10)
    else None
  }

  /** The upper-case digit for `d`. */
  function DigitChar(d: nat): (c: char)
    requires d < 16
    ensures DigitValue(c) == Some(d)
  {
    if d < 10 then (d + '0' as int) as char else (d as int - 10 + 'A' as int) as char
  }

  /** The value of a non-empty run of digits in `base`; `None` if some character is not one. */
  function Digits(s: string, base: nat): (r: Option<nat>)
    decreases |s|
  {
    if |s| == 0 then None
    else
      var d := DigitValue(s[|s| - 1]);
      if d.None? || d.value >= base then None
      else if |s| == 1 then Some(d.value)
      else match Digits(s[..|s| - 1], base)
        case None => None
        case Some(v) => Some(v * base + d.value)
  }

  lemma DigitsSnoc(a: string, d: nat, base: nat)
    requires |a| >= 1 && d < base <= 16
    ensures Digits(a + [DigitChar(d)], base) ==
      match Digits(a, base) case None => None case Some(v) => Some(v * base + d)
  {
    var s := a + [DigitChar(d)];
    assert s[..|s| - 1] == a;
  }

  /** Python's `int(s, base)` for bases 10 and 16, restricted to the texts the device sends:
      an optional sign and at least one ASCII digit; `None` stands for the ValueError. The
      forms Python also accepts (surrounding white space, `_` between digits, non-ASCII
      digits, a `0x` prefix in base 16) are refused here. */
  function ParseInt(s: string, base: nat): (r: Option<int>)
  {
    if |s| > 0 && (s[0] == '-' || s[0] == '+') then
      match Digits(s[1..], base)
      case None => None
      case Some(v) => Some(if s[0] == '-' then -(v as int) else v as int)
    else
      match Digits(s, base)
      case None => None
      case Some(v) => Some(v as int)
  }

  /** `ParseInt` in base 10. */
  function Int(s: string): Option<int>
  {
    ParseInt(s, 10)
  }

  /** A run of digits holds no character that is not a digit. */
  lemma {:induction false} DigitsExclude(s: string, base: nat, c: char)
    requires DigitValue(c).None? && Digits(s, base).Some?
    ensures c !in s
    decreases |s|
  {
    if |s| > 1 {
      DigitsExclude(s[..|s| - 1], base, c);
      assert s == s[..|s| - 1] + [s[|s| - 1]];
    }
  }

  /** A text `Int` accepts holds no character other than a sign or a digit. */
  lemma IntExcludes(s: string, c: char)
    requires Int(s).Some? && DigitValue(c).None? && c != '-' && c != '+'
    ensures c !in s
  {
    if |s| > 0 && (s[0] == '-' || s[0] == '+') {
      DigitsExclude(s[1..], 10, c);
      assert s == [s[0]] + s[1..];
    } else {
      DigitsExclude(s, 10, c);
    }
  }

  /** `ParseInt` in base 16. */
  function Hex(s: string): Option<int>
  {
    ParseInt(s, 16)
  }

  /** The digits of `n` in `base`, most significant first, without leading zeros. */
  function NatDigits(n: nat, base: nat): (r: string)
    requires 2 <= base <= 16
    ensures |r| >= 1 && DigitValue(r[0]).Some?
    decreases n
  {
    if n < base then [DigitChar(n)] else NatDigits(n / base, base) + [DigitChar(n % base)]
  }

  /** Reading the digits written by `NatDigits` gives the number back. */
  lemma {:induction false} DigitsNatDigits(n: nat, base: nat)
    requires 2 <= base <= 16
    ensures Digits(NatDigits(n, base), base) == Some(n)
    decreases n
  {
    if n >= base {
      var q, d := n / base, n % base;
      DivMod(n, base);
      DigitsNatDigits(q, base);
      assert NatDigits(n, base) == NatDigits(q, base) + [DigitChar(d)];
      DigitsNatDigitsStep(q, d, base);
    }
  }

  /** Euclidean division by at least two: the quotient is smaller and recombines with the
      remainder. */
  lemma DivMod(n: nat, b: nat)
    requires b >= 2 && n >= 1
    ensures (n / b) * b + n % b == n && n / b < n && n % b < b
  {
  }

  /** One more digit `d` after the digits of `q`: the value `q * base + d`. */
  lemma DigitsNatDigitsStep(q: nat, d: nat, base: nat)
    requires 2 <= base <= 16 && d < base
    requires Digits(NatDigits(q, base), base) == Some(q)
    ensures Digits(NatDigits(q, base) + [DigitChar(d)], base) == Some(q * base + d)
  {
    DigitsSnoc(NatDigits(q, base), d, base);
  }

  /** A leading zero does not change the value of a digit run. */
  lemma {:induction false} DigitsLeadingZero(s: string, base: nat)
    requires 2 <= base <= 16 && |s| >= 1
    ensures Digits("0" + s, base) == Digits(s, base)
    decreases |s|
  {
    var t := "0" + s;
    assert t[|t| - 1] == s[|s| - 1];
    if |s| == 1 {
      assert t[..|t| - 1] == "0";
    } else {
      assert t[..|t| - 1] == "0" + s[..|s| - 1];
      DigitsLeadingZero(s[..|s| - 1], base);
    }
  }

  /** `n` zeros. */
  function Zeros(n: nat): (r: string)
    ensures |r| == n
  {
    if n == 0 then "" else "0" + Zeros(n - 1)
  }

  lemma {:induction false} DigitsZeros(k: nat, s: string, base: nat)
    requires 2 <= base <= 16 && |s| >= 1
    ensures Digits(Zeros(k) + s, base) == Digits(s, base)
    decreases k
  {
    if k > 0 {
      DigitsZeros(k - 1, s, base);
      assert Zeros(k) + s == "0" + (Zeros(k - 1) + s);
      DigitsLeadingZero(Zeros(k - 1) + s, base);
    } else {
      assert Zeros(k) + s == s;
    }
  }

  /** `s` left-padded with zeros to at least `width` characters. */
  function PadZeros(s: string, width: nat): (r: string)
    ensures |r| == if |s| < width then width else |s|
  {
    if |s| < width then Zeros(width - |s|) + s else s
  }

  /** `n` in upper-case hex, zero-padded to `width`: no sign, and it reads back as `n`. */
  function PaddedHex(n: nat, width: nat): (r: string)
    ensures |r| >= 1 && r[0] != '-' && r[0] != '+'
    ensures Digits(r, 16) == Some(n)
  {
    DigitsNatDigits(n, 16);
    DigitsZeros(if |NatDigits(n, 16)| < width then width - |NatDigits(n, 16)| else 0, NatDigits(n, 16), 16);
    PadZeros(NatDigits(n, 16), width)
  }

  /** Python's `str(i)`. */
  function IntToString(i: int): (r: string)
    ensures Int(r) == Some(i)
  {
    DigitsNatDigits(if i < 0 then -i else i, 10);
    if i < 0 then
      assert ("-" + NatDigits(-i, 10))[1..] == NatDigits(-i, 10);
      "-" + NatDigits(-i, 10)
    else
      NatDigits(i, 10)
  }

  /** Python's `f"{i:0{width}X}"`: upper-case hex digits zero-padded after any sign so that the
      whole text has at least `width` characters. */
  function HexFormat(i: int, width: nat): (r: string)
    ensures Hex(r) == Some(i)
    ensures |r| >= width
  {
    if i < 0 then
      var d := PaddedHex(-i, if width > 0 then width - 1 else 0);
      assert ("-" + d)[1..] == d;
      "-" + d
    else
      PaddedHex(i, width)
  }

  /** How many hex digits a number takes, for the widths the library formats to. */
  lemma {:induction false} NatDigitsHexLength(n: nat)
    ensures n < 16 ==> |NatDigits(n, 16)| == 1
    ensures 16 <= n < 256 ==> |NatDigits(n, 16)| == 2
    ensures 256 <= n ==> |NatDigits(n, 16)| >= 3
    ensures n < 4096 ==> |NatDigits(n, 16)| <= 3
    ensures n < 65536 ==> |NatDigits(n, 16)| <= 4
    decreases n
  {
    if n >= 16 {
      NatDigitsHexLength(n / 16);
    }
  }

  /** `f"{i:02X}"` is exactly two characters long iff `i` is in 0..255 or in -15..-1. */
  lemma HexFormat2Width(i: int)
    ensures |HexFormat(i, 2)| == 2 <==> (0 <= i < 256 || -16 < i < 0)
  {
    NatDigitsHexLength(if i < 0 then -i else i);
  }

  /** `f"{i:04X}"` of a 16-bit value is exactly four characters long. */
  lemma HexFormat4Width(i: int)
    requires 0 <= i < 65536
    ensures |HexFormat(i, 4)| == 4
  {
    NatDigitsHexLength(i);
  }
}
