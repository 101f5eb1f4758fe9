/**
 * The configuration helpers: `parsePort` and `parseHttpAdapter`, and `readEnv` with the two
 * environment variables passed in (`None` when unset).
 */
module Env {
  import opened Wrappers
  import opened Text
  import opened JsNumber

  const DefaultPort: real := 3000.0
  const DefaultPortText := "3000"

  /** `Number.isFinite(parsed) && parsed > 0` */
  predicate UsablePort(n: Num) {
    n.Finite? && n.value > 0.0
  }

  /** `parsePort(value)`: the value read as a number when it is finite and positive, 3000 otherwise. */
  function ParsePort(value: Option<string>): (port: real)
    ensures port > 0.0
    ensures value.None? ==> port == DefaultPort
    ensures value.Some? && UsablePort(StringToNumber(value.value)) ==> port == StringToNumber(value.value).value
    ensures value.Some? && !UsablePort(StringToNumber(value.value)) ==> port == DefaultPort
  {
    DefaultPortValue();
    var parsed := StringToNumber(value.GetOr(DefaultPortText));
    if UsablePort(parsed) then parsed.value else DefaultPort
  }

  /** `Number('3000')` is 3000, so the fallback text and the fallback number agree. */
  lemma DefaultPortValue()
    ensures StringToNumber(DefaultPortText) == Finite(DefaultPort)
  {
    DefaultPortDigits();
    StringToNumberOfDigits(DefaultPortText);
  }

  lemma DefaultPortDigits()
    ensures AllDigits(DefaultPortText) && NumeralValue(DefaultPortText, 10) == 3000
  {
    assert DefaultPortText == [] + ['3'] + ['0'] + ['0'] + ['0'];
    NumeralValueSnoc([], '3', 10);
    NumeralValueSnoc(['3'], '0', 10);
    NumeralValueSnoc(['3', '0'], '0', 10);
    NumeralValueSnoc(['3', '0', '0'], '0', 10);
    assert ['3'] + ['0'] == ['3', '0'] && ['3', '0'] + ['0'] == ['3', '0', '0'];
  }

  /** A decimal port number is used as written; `0` falls back to 3000. */
  lemma ParsePortOfDecimal(n: nat)
    ensures ParsePort(Some(DecimalString(n))) == if n > 0 then n as real else DefaultPort
  {
    StringToNumberOfDecimal(n);
  }

  /** A negative decimal falls back to 3000. */
  lemma ParsePortOfNegative(n: nat)
    ensures ParsePort(Some("-" + DecimalString(n))) == DefaultPort
  {
    NegativeDecimal(n);
  }

  lemma NegativeDecimal(n: nat)
    ensures StringToNumber("-" + DecimalString(n)) == Finite(-(n as real))
  {
    NegativeDigits(DecimalString(n));
    NumeralRoundTrip(n, 10, 1);
  }

  /** `Number('-' + digits)` is the negated value of the digits. */
  lemma NegativeDigits(d: string)
    requires d != [] && AllDigits(d)
    ensures StringToNumber("-" + d) == Finite(-(NumeralValue(d, 10) as real))
  {
    var t := "-" + d;
    assert t[0] == '-' && t[1..] == d;
    TrimSignedDigits('-', d);
    StringToNumberNegative(t);
    UnsignedDigits(d);
  }

  /** A word of lower-case letters is not a number and falls back to 3000. */
  lemma ParsePortOfWord(s: string)
    requires s != [] && forall i :: 0 <= i < |s| ==> 'a' <= s[i] <= 'z'
    ensures ParsePort(Some(s)) == DefaultPort
  {
    forall i | 0 <= i < |s| ensures !IsSpace(s[i]) && s[i] != '.' {
    }
    TrimNoSpace(s);
    assert s != "Infinity" by { assert "Infinity"[0] == 'I'; }
    assert DotIndex(s) == |s|;
    assert s[..|s|] == s;
    assert !IsDigit(s[0]);
    assert UnsignedNumber(s) == NaN;
    assert !UsablePort(StringToNumber(s));
  }

  datatype HttpAdapter = Express | Fastify

  const ExpressName := "express"
  const FastifyName := "fastify"

  /** `parseHttpAdapter(value)`: Express exactly when the lower-cased value is `express`. */
  function ParseHttpAdapter(value: Option<string>): (adapter: HttpAdapter)
    ensures adapter == Express <==> value.Some? && ToLowerAscii(value.value) == ExpressName
  {
    assert ToLowerAscii(FastifyName) == FastifyName;
    var normalized := ToLowerAscii(value.GetOr(FastifyName));
    if normalized == ExpressName then Express else Fastify
  }

  /** The comparison ignores case: any spelling that differs from `express` only in case selects Express. */
  lemma ParseHttpAdapterIgnoresCase(value: string)
    requires |value| == |ExpressName|
    requires forall i :: 0 <= i < |value| ==> value[i] == ExpressName[i] || value[i] as int == ExpressName[i] as int - 32
    ensures ParseHttpAdapter(Some(value)) == Express
  {
    assert ToLowerAscii(value) == ExpressName;
  }

  /** Unset, `fastify` in any case, or anything unrecognised: Fastify. */
  lemma ParseHttpAdapterDefaults()
    ensures ParseHttpAdapter(None) == Fastify
    ensures ParseHttpAdapter(Some("FASTIFY")) == Fastify
    ensures ParseHttpAdapter(Some("express ")) == Fastify
  {
    assert |ToLowerAscii("express ")| != |ExpressName|;
    assert ToLowerAscii("FASTIFY")[0] == 'f';
  }

  datatype EnvConfig = EnvConfig(port: real, httpAdapter: HttpAdapter)

  /** `readEnv()`, given the values of `PORT` and `HTTP_ADAPTER`. */
  function ReadEnv(portVariable: Option<string>, adapterVariable: Option<string>): (env: EnvConfig)
    ensures env.port > 0.0
    ensures env.port == ParsePort(portVariable) && env.httpAdapter == ParseHttpAdapter(adapterVariable)
  {
    EnvConfig(ParsePort(portVariable), ParseHttpAdapter(adapterVariable))
  }

  /** With nothing set, the server listens on 3000 with Fastify. */
  lemma ReadEnvDefaults()
    ensures ReadEnv(None, None) == EnvConfig(DefaultPort, Fastify)
  {
  }
}
