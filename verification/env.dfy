/** Configuration from environment variables (main.go): string settings
    fall back to a default when the variable is unset; unsigned settings
    fall back to a default when the variable is unset or is not a decimal
    number that fits the setting's bit width, as Go's strconv.ParseUint
    with base 10 decides.

    The environment is a parameter (a map from variable name to value);
    command-line flags, which override these values, are not modelled. */
module Env {
  import opened Wrappers

  type Environment = map<string, string>

  /** Go's `uint` on a 64-bit platform. */
  type Uint64 = x: int | 0 <= x < 0x1_0000_0000_0000_0000

  /** getStringFromEnv: the variable's value when it is set, even to the
      empty string; the default otherwise. */
  function GetStringFromEnv(env: Environment, name: string, default: string): (r: string)
    ensures name in env ==> r == env[name]
    ensures name !in env ==> r == default
  {
    if name in env then env[name] else default
  }

  predicate IsDigit(ch: char) {
    '0' <= ch <= '9'
  }

  predicate AllDigits(s: string) {
    forall i | 0 <= i < |s| :: IsDigit(s[i])
  }

  function DigitValue(ch: char): nat
    requires IsDigit(ch)
  {
    ch as int - '0' as int
  }

  /** The number a string of decimal digits denotes, most significant
      digit first (leading zeros allowed). */
  function DecimalValue(s: string): nat
    requires AllDigits(s)
    decreases |s|
  {
    if |s| == 0 then 0 else DecimalValue(s[..|s| - 1]) * 10 + DigitValue(s[|s| - 1])
  }

  function Pow2(n: nat): (r: nat)
    ensures r > 0
  {
    if n == 0 then 1 else 2 * Pow2(n - 1)
  }

  /** The width ParseUint works with: 0 stands for the platform's 64 bits,
      and a width outside 0..64 is refused. */
  function EffectiveBitSize(bitSize: int): (r: Option<nat>)
    ensures r.Some? <==> 0 <= bitSize <= 64
    ensures r.Some? ==> 1 <= r.value <= 64
    ensures bitSize == 0 ==> r == Some(64)
    ensures 0 < bitSize <= 64 ==> r == Some(bitSize)
  {
    if bitSize == 0 then Some(64)
    else if 0 < bitSize <= 64 then Some(bitSize)
    else None
  }

  /** The error kinds of strconv that base-10 ParseUint can report. */
  datatype NumError = ErrSyntax | ErrRange | ErrBitSize

  datatype ParseResult = Parsed(value: nat) | Failed(err: NumError)

  /** What base-10 ParseUint accepts, stated without its scanning loop:
      a non-empty string of decimal digits whose value fits the width. */
  function ParseUintSpec(s: string, bitSize: int): (r: ParseResult)
    ensures r.Parsed? <==>
      && |s| > 0 && AllDigits(s) && EffectiveBitSize(bitSize).Some?
      && DecimalValue(s) < Pow2(EffectiveBitSize(bitSize).value)
    ensures r.Parsed? ==> r.value == DecimalValue(s)
  {
    if |s| == 0 then Failed(ErrSyntax)
    else match EffectiveBitSize(bitSize)
      case None => Failed(ErrBitSize)
      case Some(bits) =>
        if !AllDigits(s) then Failed(ErrSyntax)
        else if DecimalValue(s) >= Pow2(bits) then Failed(ErrRange)
        else Parsed(DecimalValue(s))
  }

  /** A prefix of a digit string denotes at most the value of the whole. */
  lemma {:induction false} PrefixValueAtMost(s: string, j: nat)
    requires AllDigits(s) && j <= |s|
    ensures AllDigits(s[..j]) && DecimalValue(s[..j]) <= DecimalValue(s)
    decreases |s|
  {
    if j < |s| {
      var init := s[..|s| - 1];
      assert init[..j] == s[..j];
      PrefixValueAtMost(init, j);
    } else {
      assert s[..j] == s;
    }
  }

  /** Go's base-10 ParseUint: empty input is a syntax error, then the bit
      size is checked, then the digits are scanned left to right; a
      character that is not a digit is a syntax error, and a running value
      that exceeds the largest value of the width is a range error at the
      point it happens. Go's separate cutoff and wrap-around tests together
      amount to the single comparison with the largest value here, because
      the width is at most 64 bits. */
  method ParseUint(s: string, bitSize: int) returns (r: ParseResult)
    ensures r.Parsed? <==> ParseUintSpec(s, bitSize).Parsed?
    ensures r.Parsed? ==> r == ParseUintSpec(s, bitSize)
    ensures |s| == 0 || EffectiveBitSize(bitSize).None? || AllDigits(s) ==> r == ParseUintSpec(s, bitSize)
  {
    if |s| == 0 {
      return Failed(ErrSyntax);
    }
    var bits := EffectiveBitSize(bitSize);
    if bits.None? {
      return Failed(ErrBitSize);
    }
    var maxVal := Pow2(bits.value) - 1;
    var n := 0;
    var i := 0;
    while i < |s|
      invariant 0 <= i <= |s|
      invariant AllDigits(s[..i])
      invariant n == DecimalValue(s[..i]) && n <= maxVal
    {
      var c := s[i];
      if !IsDigit(c) {
        return Failed(ErrSyntax);
      }
      assert s[..i + 1][..i] == s[..i];
      var n1 := n * 10 + DigitValue(c);
      if n1 > maxVal {
        if AllDigits(s) {
          PrefixValueAtMost(s, i + 1);
        }
        return Failed(ErrRange);
      }
      n := n1;
      i := i + 1;
    }
    assert s[..i] == s;
    return Parsed(n);
  }

  /** getUintFromEnv: the parsed value when the variable is set to a
      decimal number that fits `bitSize` bits; the default otherwise. */
  function GetUintFromEnv(env: Environment, name: string, default: Uint64, bitSize: int): (r: Uint64)
    ensures r != default ==> name in env && ParseUintSpec(env[name], bitSize).Parsed?
    ensures name in env && ParseUintSpec(env[name], bitSize).Parsed? ==> r == DecimalValue(env[name])
    ensures 0 < bitSize <= 64 ==> r < Pow2(bitSize) || r == default
  {
    var strVal := GetStringFromEnv(env, name, "");
    var parsed := ParseUintSpec(strVal, bitSize);
    if name !in env || parsed.Failed? then default
    else
      PowMonotone(EffectiveBitSize(bitSize).value, 64);
      Pow2Widths();
      parsed.value
  }

  lemma {:induction false} PowMonotone(a: nat, b: nat)
    requires a <= b
    ensures Pow2(a) <= Pow2(b)
    decreases b
  {
    if a < b {
      PowMonotone(a, b - 1);
    }
  }

  lemma {:induction false} Pow2Add(a: nat, b: nat)
    ensures Pow2(a + b) == Pow2(a) * Pow2(b)
    decreases a
  {
    if a > 0 {
      Pow2Add(a - 1, b);
    }
  }

  /** The widths initConfig uses, and Go's 64-bit `uint`. */
  lemma Pow2Widths()
    ensures Pow2(8) == 0x100 && Pow2(16) == 0x1_0000 && Pow2(32) == 0x1_0000_0000
    ensures Pow2(64) == 0x1_0000_0000_0000_0000
  {
    assert Pow2(8) == 0x100 by {
      Pow2Add(4, 4);
    }
    assert Pow2(16) == 0x1_0000 by {
      Pow2Add(8, 8);
    }
    assert Pow2(24) == 0x100_0000 by {
      Pow2Add(16, 8);
    }
    assert Pow2(32) == 0x1_0000_0000 by {
      Pow2Add(24, 8);
    }
    Pow2Add(32, 32);
  }

  /** Decimal formatting of a natural number, most significant digit first. */
  function ToDecimal(n: nat): string
    decreases n
  {
    var d := ['0', '1', '2', '3', '4', '5', '6', '7', '8', '9'][n % 10];
    if n < 10 then [d] else ToDecimal(n / 10) + [d]
  }

  /** Formatting then parsing gives the number back. */
  lemma {:induction false} DecimalRoundTrip(n: nat)
    ensures |ToDecimal(n)| > 0 && AllDigits(ToDecimal(n))
    ensures DecimalValue(ToDecimal(n)) == n
    decreases n
  {
    if n >= 10 {
      DecimalRoundTrip(n / 10);
      var t := ToDecimal(n / 10);
      assert (t + [ToDecimal(n)[|ToDecimal(n)| - 1]])[..|t|] == t;
    }
  }

  /** A variable holding the decimal form of a value that fits the width
      yields that value. */
  lemma GetUintFromEnvRoundTrip(env: Environment, name: string, default: Uint64, bitSize: int, n: nat)
    requires 0 < bitSize <= 64 && n < Pow2(bitSize)
    requires name in env && env[name] == ToDecimal(n)
    ensures GetUintFromEnv(env, name, default, bitSize) == n
  {
    DecimalRoundTrip(n);
  }

  /** The settings initConfig derives from the environment. */
  datatype Config = Config(apiIP: string, apiPort: Uint64, nscaIP: string, nscaPort: Uint64,
                           nscaPassword: string, nscaEncryption: Uint64)

  /** The variable the help text of the encryption setting documents. */
  const EncryptionVariable := "NSCAPI_NSCA_ENCRYPTION"

  /** The variable main.go actually reads for the encryption setting. */
  const EncryptionVariableAsWritten := "NSCAPI_NSCA_ENCYPTION"

  function ConfigReading(env: Environment, encryptionVariable: string): (cfg: Config)
    ensures cfg.apiPort < Pow2(32) && cfg.nscaPort < Pow2(16) && cfg.nscaEncryption < Pow2(8)
    ensures "NSCAPI_API_PORT" !in env ==> cfg.apiPort == 8080
    ensures "NSCAPI_NSCA_PORT" !in env ==> cfg.nscaPort == 5667
    ensures encryptionVariable !in env ==> cfg.nscaEncryption == 0
    ensures "NSCAPI_API_IP" !in env ==> cfg.apiIP == "0.0.0.0"
    ensures "NSCAPI_NSCA_IP" !in env ==> cfg.nscaIP == "0.0.0.0"
    ensures "NSCAPI_NSCA_PASSWORD" !in env ==> cfg.nscaPassword == ""
  {
    Pow2Widths();
    Config(
      GetStringFromEnv(env, "NSCAPI_API_IP", "0.0.0.0"),
      GetUintFromEnv(env, "NSCAPI_API_PORT", 8080, 32),
      GetStringFromEnv(env, "NSCAPI_NSCA_IP", "0.0.0.0"),
      GetUintFromEnv(env, "NSCAPI_NSCA_PORT", 5667, 16),
      GetStringFromEnv(env, "NSCAPI_NSCA_PASSWORD", ""),
      GetUintFromEnv(env, encryptionVariable, 0, 8))
  }

  /** initConfig as written: the encryption setting is read from a
      misspelt variable. */
  function ConfigFromEnvAsWritten(env: Environment): (cfg: Config)
    ensures EncryptionVariableAsWritten !in env ==> cfg.nscaEncryption == 0
    ensures cfg.nscaPort < Pow2(16) && cfg.nscaEncryption < Pow2(8)
  {
    ConfigReading(env, EncryptionVariableAsWritten)
  }

  /** initConfig reading the documented variable. */
  function ConfigFromEnv(env: Environment): (cfg: Config)
    ensures EncryptionVariable !in env ==> cfg.nscaEncryption == 0
    ensures cfg.nscaPort < Pow2(16) && cfg.nscaEncryption < Pow2(8)
  {
    ConfigReading(env, EncryptionVariable)
  }

  /** Setting the documented variable has no effect on the configuration
      as written. */
  lemma DocumentedEncryptionVariableIgnored(env: Environment)
    requires env == map[EncryptionVariable := "1"]
    ensures ConfigFromEnvAsWritten(env).nscaEncryption == 0
    ensures ConfigFromEnv(env).nscaEncryption == 1
  {
    assert EncryptionVariable != EncryptionVariableAsWritten by {
      assert EncryptionVariable[20] != EncryptionVariableAsWritten[20];
    }
    assert DecimalValue("1") == 1 by {
      assert "1"[..0] == [];
    }
  }

  /** With the documented variable, any encryption number that fits eight
      bits is honoured. */
  lemma DocumentedEncryptionVariableHonoured(env: Environment, n: nat)
    requires n < 256
    requires EncryptionVariable in env && env[EncryptionVariable] == ToDecimal(n)
    ensures ConfigFromEnv(env).nscaEncryption == n
  {
    GetUintFromEnvRoundTrip(env, EncryptionVariable, 0, 8, n);
  }
}
