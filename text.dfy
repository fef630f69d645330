/** The string operations of Rust's standard library that the annotation tools rely on:
    `split`, `join`, `trim`, `contains` and `u64` parsing, on `seq<char>`. */
module Text {
  import opened Wrappers

  // ---------------------------------------------------------------------------
  // split / join

  /** `s.split(sep)`: the pieces of `s` between occurrences of `sep`, always at least one. */
  function Split(s: string, sep: char): (r: seq<string>)
    ensures |r| >= 1
    ensures forall i :: 0 <= i < |r| ==> sep !in r[i]
    decreases |s|
  {
    if |s| == 0 then [""]
    else
      var rest := Split(s[1..], sep);
      if s[0] == sep then [""] + rest
      else [[s[0]] + rest[0]] + rest[1..]
  }

  /** `parts.join(sep)`. */
  function Join(parts: seq<string>, sep: char): string
    decreases |parts|
  {
    if |parts| == 0 then ""
    else if |parts| == 1 then parts[0]
    else parts[0] + [sep] + Join(parts[1..], sep)
  }

  /** Joining the pieces of a split gives back the original text. */
  lemma {:induction false} JoinSplit(s: string, sep: char)
    ensures Join(Split(s, sep), sep) == s
    decreases |s|
  {
    if |s| > 0 {
      var rest := Split(s[1..], sep);
      JoinSplit(s[1..], sep);
      if s[0] == sep {
        assert Split(s, sep) == [""] + rest;
        assert ([""] + rest)[1..] == rest;
      } else {
        var head := [s[0]] + rest[0];
        assert Split(s, sep) == [head] + rest[1..];
        if |rest| == 1 {
          assert Join(rest, sep) == rest[0];
        } else {
          assert Join(rest, sep) == rest[0] + [sep] + Join(rest[1..], sep);
          assert ([head] + rest[1..])[1..] == rest[1..];
        }
      }
    }
  }

  /** Splitting a join of separator-free pieces gives back the pieces. */
  lemma {:induction false} SplitJoin(parts: seq<string>, sep: char)
    requires |parts| >= 1
    requires forall i :: 0 <= i < |parts| ==> sep !in parts[i]
    ensures Split(Join(parts, sep), sep) == parts
    decreases |parts|, |parts[0]|
  {
    if |parts[0]| > 0 {
      var p0 := parts[0];
      var shorter := [p0[1..]] + parts[1..];
      assert forall i :: 0 <= i < |shorter| ==> sep !in shorter[i] by {
        forall i | 0 <= i < |shorter| ensures sep !in shorter[i] {
          if i == 0 {
            assert forall k :: 0 <= k < |p0[1..]| ==> p0[1..][k] == p0[k + 1];
          } else {
            assert shorter[i] == parts[i];
          }
        }
      }
      SplitJoin(shorter, sep);
      var j := Join(parts, sep);
      assert j == [p0[0]] + Join(shorter, sep) by {
        if |parts| == 1 {
          assert j == p0;
          assert Join(shorter, sep) == p0[1..];
        } else {
          assert shorter[1..] == parts[1..];
          assert Join(shorter, sep) == p0[1..] + [sep] + Join(parts[1..], sep);
        }
      }
      assert j[0] == p0[0] && p0[0] != sep;
      assert j[1..] == Join(shorter, sep);
      assert [p0[0]] + p0[1..] == p0;
      assert ([p0] + shorter[1..]) == parts;
    } else if |parts| > 1 {
      var j := Join(parts, sep);
      assert j == [sep] + Join(parts[1..], sep);
      assert j[1..] == Join(parts[1..], sep);
      SplitJoin(parts[1..], sep);
      assert [""] + parts[1..] == parts;
    }
  }

  /** Index of the first `c` in `s`, or `|s|` when there is none. */
  function IndexOf(s: string, c: char): (k: nat)
    ensures k <= |s|
    ensures forall i :: 0 <= i < k ==> s[i] != c
    ensures k < |s| ==> s[k] == c
    decreases |s|
  {
    if |s| == 0 then 0 else if s[0] == c then 0 else 1 + IndexOf(s[1..], c)
  }

  /** The position of the first `c`, found by looking at the text. */
  lemma IndexOfAt(s: string, c: char, k: nat)
    requires k < |s| && s[k] == c && forall i :: 0 <= i < k ==> s[i] != c
    ensures IndexOf(s, c) == k
  {
  }

  /** The first piece of a split is the text before the first separator. */
  lemma {:induction false} SplitFirstPiece(s: string, sep: char)
    ensures Split(s, sep)[0] == s[..IndexOf(s, sep)]
    decreases |s|
  {
    if |s| > 0 && s[0] != sep {
      SplitFirstPiece(s[1..], sep);
      assert s[..IndexOf(s, sep)] == [s[0]] + s[1..][..IndexOf(s[1..], sep)];
    }
  }

  /** `id.split('.').next()`: the transcript id without its version suffix. It is never
      absent, so no caller's `None` branch can be taken. */
  function StripVersion(id: string): (r: string)
    ensures '.' !in r
    ensures |r| <= |id| && r == id[..|r|]
    ensures |r| < |id| ==> id[|r|] == '.'
    ensures r == id <==> '.' !in id
  {
    SplitFirstPiece(id, '.');
    Split(id, '.')[0]
  }

  /** Stripping twice is the same as stripping once. */
  lemma StripVersionIdempotent(id: string)
    ensures StripVersion(StripVersion(id)) == StripVersion(id)
  {
  }

  // ---------------------------------------------------------------------------
  // trim

  /** Rust's `char::is_whitespace` (the Unicode White_Space property). */
  predicate IsWhitespace(c: char)
  {
    ('\U{9}' <= c <= '\U{D}') || c == ' ' || c == '\U{85}' || c == '\U{A0}' || c == '\U{1680}'
    || ('\U{2000}' <= c <= '\U{200A}') || c == '\U{2028}' || c == '\U{2029}' || c == '\U{202F}'
    || c == '\U{205F}' || c == '\U{3000}'
  }

  /** `s.trim_start()`. */
  function TrimStart(s: string): (r: string)
    ensures |r| <= |s|
    decreases |s|
  {
    if |s| > 0 && IsWhitespace(s[0]) then TrimStart(s[1..]) else s
  }

  /** `s.trim_end()`. */
  function TrimEnd(s: string): (r: string)
    ensures |r| <= |s|
    decreases |s|
  {
    if |s| > 0 && IsWhitespace(s[|s| - 1]) then TrimEnd(s[..|s| - 1]) else s
  }

  /** `trim_start` removes exactly the leading whitespace: what is left is a suffix that is
      empty or starts with a non-blank character. */
  lemma {:induction false} TrimStartShape(s: string)
    ensures var r := TrimStart(s);
      && r == s[|s| - |r|..]
      && (|r| > 0 ==> !IsWhitespace(r[0]))
      && (forall i :: 0 <= i < |s| - |r| ==> IsWhitespace(s[i]))
    decreases |s|
  {
    if |s| > 0 && IsWhitespace(s[0]) {
      TrimStartShape(s[1..]);
      var r := TrimStart(s);
      assert r == TrimStart(s[1..]);
      assert s[1..][|s[1..]| - |r|..] == s[|s| - |r|..];
      forall i | 0 <= i < |s| - |r| ensures IsWhitespace(s[i]) {
        if i > 0 { assert s[i] == s[1..][i - 1]; }
      }
    }
  }

  /** `trim_end` removes exactly the trailing whitespace. */
  lemma {:induction false} TrimEndShape(s: string)
    ensures var r := TrimEnd(s);
      && r == s[..|r|]
      && (|r| > 0 ==> !IsWhitespace(r[|r| - 1]))
      && (forall i :: |r| <= i < |s| ==> IsWhitespace(s[i]))
    decreases |s|
  {
    if |s| > 0 && IsWhitespace(s[|s| - 1]) {
      var init := s[..|s| - 1];
      TrimEndShape(init);
      var r := TrimEnd(s);
      assert r == TrimEnd(init);
      assert init[..|r|] == s[..|r|];
      forall i | |r| <= i < |s| ensures IsWhitespace(s[i]) {
        if i < |s| - 1 { assert s[i] == init[i]; }
      }
    }
  }

  /** Number of whitespace characters `s` starts with. */
  function LeadingWhitespace(s: string): (n: nat)
    ensures n <= |s|
  {
    |s| - |TrimStart(s)|
  }

  /** `s.trim()`: `s` without leading and trailing whitespace. */
  function Trim(s: string): (r: string)
    ensures |r| <= |s|
  {
    TrimEnd(TrimStart(s))
  }

  /** What `trim` keeps: the text between the leading and the trailing whitespace, which is
      empty or starts and ends with non-blank characters. */
  lemma TrimShape(s: string)
    ensures var r := Trim(s);
      && (|r| > 0 ==> !IsWhitespace(r[0]) && !IsWhitespace(r[|r| - 1]))
      && LeadingWhitespace(s) + |r| <= |s|
      && r == s[LeadingWhitespace(s)..LeadingWhitespace(s) + |r|]
      && (forall i :: 0 <= i < LeadingWhitespace(s) ==> IsWhitespace(s[i]))
      && (forall i :: LeadingWhitespace(s) + |r| <= i < |s| ==> IsWhitespace(s[i]))
  {
    var a := TrimStart(s);
    TrimStartShape(s);
    TrimEndShape(a);
    var r := TrimEnd(a);
    var lw := |s| - |a|;
    assert a == s[lw..];
    assert r == a[..|r|];
    assert s[lw..lw + |r|] == a[..|r|];
    assert |r| > 0 ==> r[0] == a[0];
    forall i | lw + |r| <= i < |s| ensures IsWhitespace(s[i]) {
      assert s[i] == a[i - lw];
    }
  }

  // ---------------------------------------------------------------------------
  // contains

  /** `sub` occurs in `s` starting at index `i`. */
  predicate OccursAt(s: string, sub: string, i: nat)
  {
    i + |sub| <= |s| && s[i..i + |sub|] == sub
  }

  /** `s.contains(sub)`. */
  function Contains(s: string, sub: string): (r: bool)
    ensures r <==> exists i: nat :: OccursAt(s, sub, i)
    decreases |s|
  {
    if |s| < |sub| then false
    else if s[..|sub|] == sub then assert OccursAt(s, sub, 0); true
    else
      var r := Contains(s[1..], sub);
      assert r ==> exists i: nat :: OccursAt(s, sub, i) by {
        if r {
          var i: nat :| OccursAt(s[1..], sub, i);
          assert s[i + 1..i + 1 + |sub|] == s[1..][i..i + |sub|];
          assert OccursAt(s, sub, i + 1);
        }
      }
      assert (exists i: nat :: OccursAt(s, sub, i)) ==> r by {
        if exists i: nat :: OccursAt(s, sub, i) {
          var i: nat :| OccursAt(s, sub, i);
          assert i != 0;
          assert s[1..][i - 1..i - 1 + |sub|] == s[i..i + |sub|];
          assert OccursAt(s[1..], sub, i - 1);
        }
      }
      r
  }

  // ---------------------------------------------------------------------------
  // u64 parsing

  const U64Bound: nat := 0x1_0000_0000_0000_0000

  predicate IsDigit(c: char)
  {
    '0' <= c <= '9'
  }

  predicate AllDigits(s: string)
  {
    forall i :: 0 <= i < |s| ==> IsDigit(s[i])
  }

  /** The value of a decimal digit string, most significant digit first. */
  function DigitsValue(s: string): nat
    requires AllDigits(s)
    decreases |s|
  {
    if |s| == 0 then 0
    else DigitsValue(s[..|s| - 1]) * 10 + (s[|s| - 1] as int - '0' as int)
  }

  /** `s` without one leading `+`. */
  function Unsigned(s: string): string
  {
    if |s| > 0 && s[0] == '+' then s[1..] else s
  }

  /** `s.parse::<u64>()`: an optional `+`, then at least one decimal digit, and a value
      below 2^64; anything else is an error (`None`). */
  function ParseU64(s: string): (r: Option<nat>)
    ensures r.Some? <==> |Unsigned(s)| > 0 && AllDigits(Unsigned(s)) && DigitsValue(Unsigned(s)) < U64Bound
    ensures r.Some? ==> r.value == DigitsValue(Unsigned(s)) && r.value < U64Bound
  {
    var digits := Unsigned(s);
    if |digits| == 0 || !AllDigits(digits) then None
    else
      var v := DigitsValue(digits);
      if v < U64Bound then Some(v) else None
  }

  /** Decimal rendering of a natural number, as `to_string` prints a `u64`. */
  function NatToDecimal(n: nat): (s: string)
    ensures |s| >= 1 && AllDigits(s)
    decreases n
  {
    var d := ['0' + (n % 10) as char];
    if n < 10 then d else NatToDecimal(n / 10) + d
  }

  /** Parsing what `to_string` prints gives back the number. */
  lemma {:induction false} ParseU64Decimal(n: nat)
    requires n < U64Bound
    ensures ParseU64(NatToDecimal(n)) == Some(n)
  {
    DecimalValue(n);
  }

  /** `k` zero digits. */
  function Zeros(k: nat): (z: string)
    ensures |z| == k && AllDigits(z)
  {
    seq(k, _ => '0')
  }

  /** A successful parse reads an optional `+`, then leading zeros, then the decimal rendering
      of the value. */
  lemma ParseU64Canonical(s: string, n: nat)
    requires ParseU64(s) == Some(n)
    ensures |NatToDecimal(n)| <= |Unsigned(s)|
    ensures Unsigned(s) == Zeros(|Unsigned(s)| - |NatToDecimal(n)|) + NatToDecimal(n)
  {
    PaddedDecimal(Unsigned(s));
  }

  /** Conversely, an optional `+`, any number of zeros and the rendering of a `u64` value
      parse back to that value. */
  lemma ParseU64Padded(sign: string, k: nat, n: nat)
    requires sign == "" || sign == "+"
    requires n < U64Bound
    ensures ParseU64(sign + Zeros(k) + NatToDecimal(n)) == Some(n)
  {
    var d := Zeros(k) + NatToDecimal(n);
    assert sign + Zeros(k) + NatToDecimal(n) == sign + d;
    assert Unsigned(sign + d) == d by {
      if sign == "+" { assert (sign + d)[1..] == d; }
      else { assert sign + d == d; }
    }
    ZerosValue(k, NatToDecimal(n));
    DecimalValue(n);
  }

  /** Leading zeros do not change the value. */
  lemma {:induction false} ZerosValue(k: nat, t: string)
    requires AllDigits(t)
    ensures AllDigits(Zeros(k) + t) && DigitsValue(Zeros(k) + t) == DigitsValue(t)
    decreases |t|, k
  {
    var z := Zeros(k) + t;
    if |t| > 0 {
      var init := t[..|t| - 1];
      ZerosValue(k, init);
      assert z[..|z| - 1] == Zeros(k) + init;
    } else if k > 0 {
      ZerosValue(k - 1, t);
      assert z[..|z| - 1] == Zeros(k - 1) + t;
    } else {
      assert z == [];
    }
  }

  /** Every non-empty digit string is its value's rendering, preceded by zeros. */
  lemma {:induction false} PaddedDecimal(d: string)
    requires |d| > 0 && AllDigits(d)
    ensures |NatToDecimal(DigitsValue(d))| <= |d|
    ensures d == Zeros(|d| - |NatToDecimal(DigitsValue(d))|) + NatToDecimal(DigitsValue(d))
    decreases |d|
  {
    var init, c := d[..|d| - 1], d[|d| - 1];
    var v := DigitsValue(d);
    var cv := c as int - '0' as int;
    assert d == init + [c];
    if |init| == 0 {
      assert v == cv < 10;
      assert NatToDecimal(v) == ['0' + (v % 10) as char];
      assert NatToDecimal(v) == [c];
      assert Zeros(0) + [c] == [c];
    } else {
      PaddedDecimal(init);
      var w := DigitsValue(init);
      var k := |init| - |NatToDecimal(w)|;
      if w == 0 {
        assert v == cv;
        assert NatToDecimal(v) == [c];
        assert NatToDecimal(0) == "0";
        assert init == Zeros(k) + "0";
        assert init == Zeros(|init|);
        assert d == Zeros(|init|) + [c];
      } else {
        assert v == w * 10 + cv && v >= 10;
        assert v / 10 == w && v % 10 == cv;
        assert NatToDecimal(v) == NatToDecimal(w) + [c];
        assert d == Zeros(k) + NatToDecimal(w) + [c];
      }
    }
  }

  lemma {:induction false} DecimalValue(n: nat)
    ensures DigitsValue(NatToDecimal(n)) == n
    decreases n
  {
    var s := NatToDecimal(n);
    if n >= 10 {
      DecimalValue(n / 10);
      assert s[..|s| - 1] == NatToDecimal(n / 10);
    }
  }
}
