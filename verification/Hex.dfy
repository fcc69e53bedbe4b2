/** Two ways of printing a number in hexadecimal: the kernel's itoa, without leading
    zeros, and the loader's DispInt, with all eight digits. */
module Hex {

  /** The ASCII code of a hexadecimal digit. */
  function DigitCode(d: int): int { if d <= 9 then 48 + d else 55 + d }

  /** The value of a digit's code, for upper-case digits. */
  function DigitValue(c: int): int { if c <= 57 then c - 48 else c - 55 }

  /** `num >> 4 * k`, an arithmetic shift for negative numbers. */
  function Shifted(num: int, k: nat): int {
    if k == 0 then num else Shifted(num, k - 1) / 16
  }

  /** A C int read as an unsigned number. */
  function Unsigned(num: int): int { if num < 0 then num + 0x1_0000_0000 else num }

  predicate Int32(num: int) { -0x8000_0000 <= num < 0x8000_0000 }

  /** The last `k` hexadecimal digits of a number. */
  function Fixed(u: int, k: nat): (s: seq<int>)
    ensures |s| == k
    decreases k
  {
    if k == 0 then [] else Fixed(u / 16, k - 1) + [DigitCode(u % 16)]
  }

  /** The text without its leading zeros. */
  function Stripped(s: seq<int>): seq<int> {
    if s != [] && s[0] == 48 then Stripped(s[1..]) else s
  }

  /** The number a text of hexadecimal digits stands for. */
  function Parse(s: seq<int>): int {
    if s == [] then 0 else Parse(s[..|s| - 1]) * 16 + DigitValue(s[|s| - 1])
  }

  function Pow16(k: nat): (p: int)
    ensures p > 0
  {
    if k == 0 then 1 else 16 * Pow16(k - 1)
  }

  /** The characters 0 to 9 and A to F. */
  predicate IsHexDigit(c: int) { 48 <= c <= 57 || 65 <= c <= 70 }

  predicate AllHex(s: seq<int>) { forall i | 0 <= i < |s| :: IsHexDigit(s[i]) }

  /** A text of such characters is fixed by its length and the number it stands for. */
  lemma {:induction false} ParseFixesText(s: seq<int>, t: seq<int>)
    requires AllHex(s) && AllHex(t) && |s| == |t| && Parse(s) == Parse(t)
    ensures s == t
  {
    if s != [] {
      var n := |s| - 1;
      assert 0 <= DigitValue(s[n]) < 16 && 0 <= DigitValue(t[n]) < 16;
      assert Parse(s[..n]) == Parse(t[..n]) && DigitValue(s[n]) == DigitValue(t[n]);
      ParseFixesText(s[..n], t[..n]);
      assert s == s[..n] + [s[n]] && t == t[..n] + [t[n]];
    }
  }

  lemma {:induction false} FixedIsHex(u: int, k: nat)
    ensures AllHex(Fixed(u, k))
    decreases k
  {
    if k > 0 {
      FixedIsHex(u / 16, k - 1);
    }
  }

  lemma {:induction false} StrippedIsHex(s: seq<int>)
    requires AllHex(s)
    ensures AllHex(Stripped(s))
  {
    if s != [] && s[0] == 48 {
      StrippedIsHex(s[1..]);
    }
  }

  // ---------------------------------------------------------------------------
  // The loader

  /** DispAL: the two digits of a byte. */
  method DispAL(al: int) returns (text: seq<int>)
    requires 0 <= al < 256
    ensures text == Fixed(al, 2) && AllHex(text)
  {
    var dl := al;
    var a := al / 16;
    text := [];
    var ecx := 2;
    while ecx != 0
      invariant 0 <= ecx <= 2
      invariant ecx == 2 ==> text == [] && a == al / 16
      invariant ecx == 1 ==> text == [DigitCode(al / 16 % 16)] && a == al
      invariant ecx == 0 ==> text == [DigitCode(al / 16 % 16), DigitCode(al % 16)]
    {
      a := a % 16;
      if a > 9 {
        a := a - 10;
        a := a + 65;
      } else {
        a := a + 48;
      }
      text := text + [a];
      a := dl;
      ecx := ecx - 1;
    }
    assert Fixed(al, 2) == Fixed(al / 16, 1) + [DigitCode(al % 16)];
    assert Fixed(al / 16, 1) == Fixed(al / 16 / 16, 0) + [DigitCode(al / 16 % 16)];
    FixedIsHex(al, 2);
  }

  /** DispInt: eight digits and an h. */
  method DispInt(value: int) returns (text: seq<int>)
    requires 0 <= value < 0x1_0000_0000
    ensures text == Fixed(value, 8) + [104] && AllHex(text[..8])
  {
    var t3 := DispAL(value / 0x100_0000 % 256);
    var t2 := DispAL(value / 0x1_0000 % 256);
    var t1 := DispAL(value / 0x100 % 256);
    var t0 := DispAL(value % 256);
    text := t3 + t2 + t1 + t0 + [104];
    JoinBytes(value / 0x1_0000, 2);
    JoinBytes(value / 0x100, 4);
    JoinBytes(value, 6);
    FixedTail(value / 0x100_0000 % 256, value / 0x100_0000);
    assert Fixed(value / 0x100_0000, 2) == t3;
    assert value / 0x1_0000 / 256 == value / 0x100_0000 && value / 0x100 / 256 == value / 0x1_0000;
    FixedIsHex(value, 8);
    assert text[..8] == Fixed(value, 8);
  }

  lemma LowNibbles(u: int)
    ensures u % 256 % 16 == u % 16
    ensures u % 256 / 16 % 16 == u / 16 % 16
  {
    var q, r := u / 256, u % 256;
    assert u == 16 * (16 * q + r / 16) + r % 16;
    assert u / 16 == 16 * q + r / 16;
  }

  lemma FixedTail(b: int, u: int)
    requires b == u % 256
    ensures Fixed(b, 2) == Fixed(u, 2)
  {
    LowNibbles(u);
    assert Fixed(b, 2) == Fixed(b / 16 / 16, 0) + [DigitCode(b / 16 % 16)] + [DigitCode(b % 16)];
    assert Fixed(u, 2) == Fixed(u / 16 / 16, 0) + [DigitCode(u / 16 % 16)] + [DigitCode(u % 16)];
  }

  /** The digits of a number are those of its upper part and those of its last byte. */
  lemma JoinBytes(u: int, k: nat)
    ensures Fixed(u, k + 2) == Fixed(u / 256, k) + Fixed(u % 256, 2)
  {
    assert u / 16 / 16 == u / 256;
    FixedTail(u % 256, u);
    assert Fixed(u, k + 2) == Fixed(u / 16 / 16, k) + [DigitCode(u / 16 % 16)] + [DigitCode(u % 16)];
    assert Fixed(u, 2) == Fixed(u / 16 / 16, 0) + [DigitCode(u / 16 % 16)] + [DigitCode(u % 16)];
  }

  // ---------------------------------------------------------------------------
  // The kernel

  /** The digits itoa prints. */
  function Digits(num: int): seq<int> {
    if num == 0 then [48] else Stripped(Fixed(Unsigned(num), 8))
  }

  lemma {:induction false} ShiftedWraps(num: int, k: nat)
    requires k <= 8
    ensures Shifted(num + Pow16(8), k) == Shifted(num, k) + Pow16(8 - k)
  {
    if k > 0 {
      ShiftedWraps(num, k - 1);
      assert Pow16(8 - (k - 1)) == 16 * Pow16(8 - k);
    }
  }

  /** The nibble that `(num >> i) & 0xF` takes is that of the unsigned number. */
  lemma SameNibble(num: int, k: nat)
    requires k < 8
    ensures Shifted(num, k) % 16 == Shifted(Unsigned(num), k) % 16
  {
    ShiftedWraps(num, k);
    EightNibbles();
    assert Pow16(8 - k) == 16 * Pow16(7 - k);
  }

  lemma EightNibbles()
    ensures Pow16(8) == 0x1_0000_0000
  {
    assert Pow16(4) == 0x1_0000;
    assert Pow16(6) == 0x100_0000;
  }

  lemma {:induction false} StripLast(s: seq<int>, c: int)
    ensures Stripped(s + [c]) == if Stripped(s) == [] then Stripped([c]) else Stripped(s) + [c]
  {
    if s == [] {
      assert s + [c] == [c];
    } else if s[0] == 48 {
      assert (s + [c])[1..] == s[1..] + [c];
      StripLast(s[1..], c);
    }
  }

  lemma {:induction false} StripShortens(s: seq<int>)
    ensures |Stripped(s)| <= |s|
    ensures Stripped(s) != [] ==> Stripped(s)[0] != 48
    decreases |s|
  {
    if s != [] && s[0] == 48 {
      StripShortens(s[1..]);
    }
  }

  /** One turn of itoa's loop: print the nibble unless it is a leading zero. */
  method PrintNibble(str: array<int>, p: nat, flag: bool, nibble: int) returns (p': nat, flag': bool)
    requires 0 <= nibble < 16 && p < str.Length
    modifies str
    ensures flag' <==> flag || nibble > 0
    ensures p' == (if flag' then p + 1 else p)
    ensures str[..p'] == old(str[..p]) + if flag' then [DigitCode(nibble)] else []
    ensures forall a | p' <= a < str.Length :: str[a] == old(str[a])
  {
    p', flag' := p, flag;
    var ch := nibble;
    if flag' || ch > 0 {
      flag' := true;
      ch := ch + 48;
      if ch > 57 {
        ch := ch + 7;
      }
      str[p'] := ch;
      p' := p' + 1;
    }
  }

  /** The digits after the first `8 - k` nibbles, and one more. */
  lemma NextNibble(u: int, k: nat)
    requires 0 < k <= 8
    ensures var v := Shifted(u, k - 1);
            var before := Stripped(Fixed(Shifted(u, k), 8 - k));
            Stripped(Fixed(v, 9 - k))
            == before + (if before != [] || v % 16 > 0 then [DigitCode(v % 16)] else [])
  {
    var v := Shifted(u, k - 1);
    StripLast(Fixed(v / 16, 8 - k), DigitCode(v % 16));
  }

  /** itoa.  `str` must have room for 11 characters. */
  method Itoa(str: array<int>, num: int) returns (end: nat)
    requires Int32(num) && str.Length >= 11
    modifies str
    ensures end <= 10 && str[..end + 1] == [48, 120] + Digits(num) + [0]
    ensures forall a | end < a < str.Length :: str[a] == old(str[a])
  {
    hide Stripped, Fixed, Shifted, Unsigned;
    var p := 0;
    str[p] := 48;
    p := p + 1;
    str[p] := 120;
    p := p + 1;
    assert str[..p] == [48, 120];
    if num == 0 {
      str[p] := 48;
      p := p + 1;
    } else {
      ghost var u := Unsigned(num);
      Start(u);
      var flag := false;
      var i := 28;
      ghost var k: nat := 8;
      while i >= 0
        invariant i == 4 * k - 4 && k <= 8 && 2 <= p <= 10 - k
        invariant str[..p] == [48, 120] + Stripped(Fixed(Shifted(u, k), 8 - k))
        invariant flag <==> p > 2
        invariant forall a | p <= a < str.Length :: str[a] == old(str[a])
      {
        SameNibble(num, k - 1);
        NextNibble(u, k);
        p, flag := PrintNibble(str, p, flag, Shifted(num, i / 4) % 16);
        i := i - 4;
        k := k - 1;
      }
    }
    str[p] := 0;
    end := p;
  }

  lemma Start(u: int)
    ensures Shifted(u, 0) == u
    ensures Stripped(Fixed(Shifted(u, 8), 0)) == []
  {
  }

  lemma {:induction false} ParseFixed(u: int, k: nat)
    requires 0 <= u < Pow16(k)
    ensures Parse(Fixed(u, k)) == u
    decreases k
  {
    if k > 0 {
      ParseFixed(u / 16, k - 1);
    }
  }

  lemma {:induction false} ParseZero(s: seq<int>)
    ensures Parse([48] + s) == Parse(s)
  {
    if s == [] {
      assert [48] + s == [48];
    } else {
      var t := [48] + s;
      assert t[..|t| - 1] == [48] + s[..|s| - 1];
      ParseZero(s[..|s| - 1]);
    }
  }

  lemma {:induction false} ParseStripped(s: seq<int>)
    ensures Parse(Stripped(s)) == Parse(s)
    decreases |s|
  {
    if s != [] && s[0] == 48 {
      ParseStripped(s[1..]);
      ParseZero(s[1..]);
      assert s == [48] + s[1..];
    }
  }

  /** What itoa prints stands for the number, has no redundant zero in front, and is
      what DispInt prints without its leading zeros. */
  lemma ItoaFaithful(num: int)
    requires Int32(num)
    ensures Parse(Digits(num)) == Unsigned(num)
    ensures 1 <= |Digits(num)| <= 8 && (num != 0 ==> Digits(num)[0] != 48)
    ensures num != 0 ==> Digits(num) == Stripped(Fixed(Unsigned(num), 8))
    ensures AllHex(Digits(num))
  {
    var u := Unsigned(num);
    if num == 0 {
      assert Digits(0)[..0] == [];
    } else {
      EightNibbles();
      ParseFixed(u, 8);
      ParseStripped(Fixed(u, 8));
      StripShortens(Fixed(u, 8));
      FixedIsHex(u, 8);
      StrippedIsHex(Fixed(u, 8));
    }
  }
}
