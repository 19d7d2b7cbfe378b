/**
 The typed getters of cbase_config.c for 64-bit integers.
 */
module ConfigNumbers {
  import opened ConfigText
  import opened ConfigList

  const I64_MAX: nat := 0x7FFF_FFFF_FFFF_FFFF
  const U64_MAX: nat := 0xFFFF_FFFF_FFFF_FFFF

  predicate IsDigit(c: char) { '0' <= c <= '9' }

  function Digit(c: char): (d: nat)
    requires IsDigit(c)
    ensures d < 10
  {
    c as int - '0' as int
  }

  ghost predicate AllDigits(s: string) {
    forall i :: 0 <= i < |s| ==> IsDigit(s[i])
  }

  /** A base-10 numeral without sign. */
  ghost predicate IsNatural(s: string) { s != [] && AllDigits(s) }

  ghost function NaturalValue(s: string): nat
    requires AllDigits(s)
  {
    if s == [] then 0 else 10 * NaturalValue(s[..|s| - 1]) + Digit(s[|s| - 1])
  }

  function Power10(n: nat): nat { if n == 0 then 1 else 10 * Power10(n - 1) }

  /** Each digit counts for its code above that of '0' times the power of ten of its place. */
  lemma {:induction false} PlacesCount(s: string)
    requires IsNatural(s)
    ensures NaturalValue(s) == (s[0] as int - 48) * Power10(|s| - 1) + NaturalValue(s[1..])
    ensures |s| == 1 ==> NaturalValue(s) == s[0] as int - 48
    decreases |s|
  {
    var n := |s| - 1;
    if n > 0 {
      PlacesCount(s[..n]);
      assert s[1..][..n - 1] == s[..n][1..];
      TenTimes(s[0] as int - 48, Power10(n - 1));
    } else {
      assert s[..0] == [] && s[1..] == [];
    }
  }

  lemma TenTimes(d: int, p: int)
    ensures 10 * (d * p) == d * (10 * p)
  {
  }

  /** A base-10 numeral with an optional minus sign. */
  ghost predicate IsInteger(s: string) {
    IsNatural(s) || (s != [] && s[0] == '-' && IsNatural(s[1..]))
  }

  ghost function IntegerValue(s: string): int
    requires IsInteger(s)
  {
    if s[0] == '-' then -(NaturalValue(s[1..]) as int) else NaturalValue(s)
  }

  /** More digits never make a numeral smaller. */
  lemma {:induction false} PrefixAtMost(s: string, n: nat)
    requires AllDigits(s) && n <= |s|
    ensures NaturalValue(s[..n]) <= NaturalValue(s)
    decreases |s|
  {
    if n < |s| {
      var m := |s| - 1;
      assert s[..m][..n] == s[..n];
      PrefixAtMost(s[..m], n);
    } else {
      assert s[..n] == s;
    }
  }

  /** The digit loop both parsers share: it stops before the accumulator would exceed the limit. */
  method ReadDigits(s: string, from: nat, limit: nat) returns (ok: bool, acc: nat)
    requires from <= |s| && limit >= 10
    ensures ok <==> AllDigits(s[from..]) && NaturalValue(s[from..]) <= limit
    ensures ok ==> acc == NaturalValue(s[from..])
  {
    hide NaturalValue;
    var i := from;
    acc := 0;
    NoDigits(s[from..from]);
    while i < |s|
      invariant from <= i <= |s| && AllDigits(s[from..i]) && acc == NaturalValue(s[from..i]) <= limit
    {
      if !IsDigit(s[i]) {
        assert s[from..][i - from] == s[i];
        return false, 0;
      }
      var d := Digit(s[i]);
      OneMoreDigit(s, from, i);
      if acc > (limit - d) / 10 {
        Overflows(s, from, i + 1, limit);
        return false, 0;
      }
      acc := acc * 10 + d;
      i := i + 1;
    }
    assert s[from..i] == s[from..];
    ok := true;
  }

  lemma NoDigits(s: string)
    requires s == []
    ensures AllDigits(s) && NaturalValue(s) == 0
  {
  }

  lemma OneMoreDigit(s: string, from: nat, i: nat)
    requires from <= i < |s| && AllDigits(s[from..i]) && IsDigit(s[i])
    ensures AllDigits(s[from..i + 1])
    ensures NaturalValue(s[from..i + 1]) == 10 * NaturalValue(s[from..i]) + Digit(s[i])
  {
    var t := s[from..i + 1];
    assert t[..|t| - 1] == s[from..i];
    assert forall k :: 0 <= k < |t| - 1 ==> t[k] == s[from..i][k];
  }

  lemma Overflows(s: string, from: nat, i: nat, limit: nat)
    requires from <= i <= |s| && AllDigits(s[from..i]) && NaturalValue(s[from..i]) > limit
    ensures AllDigits(s[from..]) ==> NaturalValue(s[from..]) > limit
  {
    if AllDigits(s[from..]) {
      assert s[from..][..i - from] == s[from..i];
      PrefixAtMost(s[from..], i - from);
    }
  }

  /** cb__config_parse_i64 accepts exactly the numerals in range and returns their value. */
  method ParseI64(s: string) returns (ok: bool, v: int)
    ensures ok <==> IsInteger(s) && -0x8000_0000_0000_0000 <= IntegerValue(s) <= 0x7FFF_FFFF_FFFF_FFFF
    ensures ok ==> v == IntegerValue(s)
  {
    hide NaturalValue;
    if |s| == 0 { return false, 0; }
    var neg := false;
    var i := 0;
    if s[0] == '-' {
      neg := true;
      i := 1;
      if i == |s| { return false, 0; }
    }
    assert s[0..] == s;
    assert s[i..] != [] && s[i..][0] == s[i];
    if !IsDigit(s[i]) { return false, 0; }
    var limit := if neg then I64_MAX + 1 else I64_MAX;
    var acc;
    ok, acc := ReadDigits(s, i, limit);
    if !ok { return false, 0; }
    v := if neg then -(acc as int) else acc;
  }

  /** cb__config_parse_u64 accepts exactly the unsigned numerals in range. */
  method ParseU64(s: string) returns (ok: bool, v: nat)
    ensures ok <==> IsNatural(s) && NaturalValue(s) <= 0xFFFF_FFFF_FFFF_FFFF
    ensures ok ==> v == NaturalValue(s)
  {
    hide NaturalValue;
    if |s| == 0 { return false, 0; }
    assert s[0..] == s;
    if !IsDigit(s[0]) { return false, 0; }
    ok, v := ReadDigits(s, 0, U64_MAX);
  }

  datatype Found = Missing | BadInt | Good

  /** cb_config_get_i64: the fallback comes back unless the key is there with a value in range. */
  method GetI64(cfg: Config, key: string, fallback: int) returns (found: Found, v: int)
    requires cfg.Linked()
    ensures var n := IndexOf(cfg.Entries(), key);
            && (found == Missing <==> n == |cfg.Entries()|)
            && (found != Good ==> v == fallback)
            && (n < |cfg.Entries()| ==>
                  var s := Terminated(cfg.Entries()[n].value);
                  && (found == Good <==> IsInteger(s) && -0x8000_0000_0000_0000 <= IntegerValue(s) <= 0x7FFF_FFFF_FFFF_FFFF)
                  && (found == Good ==> v == IntegerValue(s)))
  {
    hide IndexOf, IsInteger, IntegerValue;
    var present, s := cfg.Get(key);
    if !present { return Missing, fallback; }
    var ok, value := ParseI64(s);
    if !ok { return BadInt, fallback; }
    return Good, value;
  }

  /** cb_config_get_u64 */
  method GetU64(cfg: Config, key: string, fallback: nat) returns (found: Found, v: nat)
    requires cfg.Linked()
    ensures var n := IndexOf(cfg.Entries(), key);
            && (found == Missing <==> n == |cfg.Entries()|)
            && (found != Good ==> v == fallback)
            && (n < |cfg.Entries()| ==>
                  var s := Terminated(cfg.Entries()[n].value);
                  && (found == Good <==> IsNatural(s) && NaturalValue(s) <= 0xFFFF_FFFF_FFFF_FFFF)
                  && (found == Good ==> v == NaturalValue(s)))
  {
    hide IndexOf, NaturalValue;
    var present, s := cfg.Get(key);
    if !present { return Missing, fallback; }
    var ok, value := ParseU64(s);
    if !ok { return BadInt, fallback; }
    return Good, value;
  }
}
