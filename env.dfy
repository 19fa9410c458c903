/** Process environment lookups (`std::env::var`) and Rust's `u32` parsing. */
module Env {
  import opened Wrappers

  type Env = map<string, string>

  function Var(env: Env, name: string): (r: Option<string>)
    ensures r.Some? <==> name in env
    ensures r.Some? ==> r.value == env[name]
  {
    if name in env then Some(env[name]) else None
  }

  /** `env::var(name).unwrap_or_else(|_| default)`. */
  function VarOr(env: Env, name: string, default: string): (r: string)
    ensures name in env ==> r == env[name]
    ensures name !in env ==> r == default
  {
    match Var(env, name)
    case Some(v) => v
    case None => default
  }

  const U32_LIMIT: nat := 0x1_0000_0000

  predicate IsDigit(c: char) {
    '0' <= c <= '9'
  }

  predicate AllDigits(s: string) {
    forall i :: 0 <= i < |s| ==> IsDigit(s[i])
  }

  function DigitValue(c: char): nat
    requires IsDigit(c)
  {
    (c - '0') as nat
  }

  /** The decimal value of a run of digits, read most significant first. */
  function DigitsValue(s: string): nat
    requires AllDigits(s)
  {
    if s == [] then 0 else DigitsValue(s[..|s| - 1]) * 10 + DigitValue(s[|s| - 1])
  }

  /** `<u32 as FromStr>::from_str`: an optional `+`, then at least one digit, below 2^32. */
  function ParseU32(s: string): (r: Option<nat>)
    ensures r.Some? ==> r.value < U32_LIMIT
    ensures s == [] || s == "+" ==> r.None?
    ensures (exists i :: 0 <= i < |s| && s[i] == '-') ==> r.None?
  {
    var digits := if |s| > 0 && s[0] == '+' then s[1..] else s;
    if digits == [] || !AllDigits(digits) then None
    else
      var v := DigitsValue(digits);
      if v < U32_LIMIT then Some(v) else None
  }

  /** The shortest decimal rendering of n. */
  function Decimal(n: nat): (s: string)
    ensures s != [] && AllDigits(s)
    decreases n
  {
    var last := '0' + (n % 10) as char;
    if n < 10 then [last] else Decimal(n / 10) + [last]
  }

  lemma {:induction false} DecimalValue(n: nat)
    ensures DigitsValue(Decimal(n)) == n
    decreases n
  {
    var s := Decimal(n);
    assert s[..|s| - 1] == (if n < 10 then [] else Decimal(n / 10));
    if n >= 10 {
      DecimalValue(n / 10);
    }
  }

  /** Every value of a u32, written in decimal, parses back to itself. */
  lemma {:induction false} ParseDecimal(n: nat)
    requires n < U32_LIMIT
    ensures ParseU32(Decimal(n)) == Some(n)
  {
    DecimalValue(n);
  }

  /** A value of 2^32 or more does not parse as a u32. */
  lemma {:induction false} ParseDecimalOverflow(n: nat)
    requires n >= U32_LIMIT
    ensures ParseU32(Decimal(n)) == None
  {
    DecimalValue(n);
  }
}
