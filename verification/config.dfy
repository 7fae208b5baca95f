/**
 * `configFactory`: environment variables, `??` defaults, then the schema
 * `{ jwksPath: string, namespace: string, secretName: string,
 *    maxKeys: coerce.number().positive().int() }`.
 */
module Config {
  import opened Wrappers
  import opened Numerals

  /**
   * The four strings the factory reads, `None` where a variable is unset:
   * `JWKS_PATH`, `NAMESPACE`, `SECRET_NAME`, `MAX_KEYS`.  The same shape holds
   * the intermediate record after defaults are applied.
   */
  datatype Env = Env(
    jwksPath: Option<string>,
    namespace: Option<string>,
    secretName: Option<string>,
    maxKeys: Option<string>)

  /** A configuration the schema accepted. */
  datatype Config = Config(jwksPath: string, namespace: string, secretName: string, maxKeys: int)

  const DefaultJwksPath: string := "/tmp/jwks.json"
  const DefaultSecretName: string := "jwt-keys"
  const DefaultMaxKeys: string := "2"

  /** The schema's complaints, one per failed check, in the order they are reported. */
  datatype Field = JwksPathField | NamespaceField | SecretNameField | MaxKeysField
  datatype IssueCode =
    | Required    // a string field that is undefined
    | NotANumber  // `Number(text)` is NaN
    | TooSmall    // `.positive()` failed
    | NotInteger  // `.int()` failed
  datatype Issue = Issue(field: Field, code: IssueCode)

  /**
   * The intermediate record: a variable that is set is kept as it is; an unset
   * one takes its default, except `NAMESPACE`, which has none.
   */
  function WithDefaults(env: Env): (raw: Env)
    ensures raw.jwksPath.Some? && raw.secretName.Some? && raw.maxKeys.Some?
    ensures env.jwksPath.Some? ==> raw.jwksPath == env.jwksPath
    ensures env.jwksPath.None? ==> raw.jwksPath == Some(DefaultJwksPath)
    ensures raw.namespace == env.namespace
    ensures env.secretName.Some? ==> raw.secretName == env.secretName
    ensures env.secretName.None? ==> raw.secretName == Some(DefaultSecretName)
    ensures env.maxKeys.Some? ==> raw.maxKeys == env.maxKeys
    ensures env.maxKeys.None? ==> raw.maxKeys == Some(DefaultMaxKeys)
  {
    Env(
      Some(Coalesce(env.jwksPath, DefaultJwksPath)),
      env.namespace,
      Some(Coalesce(env.secretName, DefaultSecretName)),
      Some(Coalesce(env.maxKeys, DefaultMaxKeys)))
  }

  /**
   * The least magnitude that IEEE 754 round-to-nearest turns into infinity:
   * `2^1024 - 2^970`, half a unit in the last place above the largest finite
   * double.
   */
  const OverflowBound: nat :=
    179769313486231580793728971405303415079934132710037826936173778980444968292764750946649017977587207096330286416692887910946555547851940402630657488671505820681908902000708383676273854845817711531764475730270069855571366959622842914819860834936475292719074168444365510704342711559699508093042880177904174497792

  /**
   * The number `Number(text)` yields: NaN, an infinity, or exactly
   * `mantissa / 10^scale`.
   */
  datatype Coerced = NaN | Infinite(negative: bool) | Decimal(mantissa: int, scale: nat) {

    predicate IsPositive() {
      || (Decimal? && mantissa > 0)
      || (Infinite? && !negative)
    }

    predicate IsInteger() {
      Decimal? && mantissa % Pow(10, scale) == 0
    }
  }

  /** The position of the first `c` in `s`. */
  function IndexOf(s: string, c: char): (r: Option<nat>)
    ensures r.None? <==> c !in s
    ensures r.Some? ==> r.value < |s| && s[r.value] == c && c !in s[..r.value]
  {
    if |s| == 0 then None
    else if s[0] == c then Some(0)
    else
      match IndexOf(s[1..], c)
      case None => None
      case Some(i) =>
        assert s[..i + 1] == [s[0]] + s[1..][..i];
        Some(i + 1)
  }

  /** Unsigned `digits`, `digits.digits`, `digits.` or `.digits` as `(mantissa, scale)`. */
  function UnsignedDecimal(body: string): Option<(nat, nat)> {
    match IndexOf(body, '.')
    case None =>
      if |body| > 0 && IsNumeral(body, 10) then Some((FromNumeral(body, 10), 0)) else None
    case Some(i) =>
      var whole, fraction := body[..i], body[i + 1..];
      if |whole| + |fraction| > 0 && IsNumeral(whole, 10) && IsNumeral(fraction, 10) then
        NumeralConcat(whole, fraction, 10);
        Some((FromNumeral(whole + fraction, 10), |fraction|))
      else
        None
  }

  /**
   * `Number(text)` for the empty string and for plain decimal text with an
   * optional sign; every other text is taken to be NaN.  A magnitude at or
   * above `OverflowBound` is an infinity of the text's sign.
   */
  function CoerceNumber(text: string): (r: Coerced)
    ensures text == "" ==> r == Decimal(0, 0)
    ensures r.Decimal? ==>
      -(OverflowBound * Pow(10, r.scale)) < r.mantissa < OverflowBound * Pow(10, r.scale)
  {
    if text == "" then Decimal(0, 0)
    else
      var negative := text[0] == '-';
      var body := if text[0] == '-' || text[0] == '+' then text[1..] else text;
      match UnsignedDecimal(body)
      case None => NaN
      case Some((m, k)) =>
        if m >= OverflowBound * Pow(10, k) then Infinite(negative)
        else Decimal(if negative then -(m as int) else m, k)
  }

  /**
   * Integer text reads as its value, with or without a minus sign, up to the
   * overflow bound; beyond it, as an infinity.
   */
  lemma CoerceInteger(n: nat)
    ensures n < OverflowBound ==> CoerceNumber(ToNumeral(n, 10)) == Decimal(n, 0)
    ensures n < OverflowBound ==> CoerceNumber("-" + ToNumeral(n, 10)) == Decimal(-(n as int), 0)
    ensures n >= OverflowBound ==> CoerceNumber(ToNumeral(n, 10)) == Infinite(false)
    ensures n >= OverflowBound ==> CoerceNumber("-" + ToNumeral(n, 10)) == Infinite(true)
  {
    var digits := ToNumeral(n, 10);
    IntegerDigits(n);
    assert digits[0] != '-' && digits[0] != '+';
    CoerceUnsigned(digits, n, 0);
    assert ("-" + digits)[1..] == digits;
    CoerceSigned("-" + digits, n, 0);
  }

  lemma IntegerDigits(n: nat)
    ensures UnsignedDecimal(ToNumeral(n, 10)) == Some((n, 0))
  {
    var digits := ToNumeral(n, 10);
    assert '.' !in digits by {
      assert forall i | 0 <= i < |digits| :: IsDigit(digits[i], 10);
    }
    FromToNumeral(n, 10);
  }

  /** Unsigned decimal text: its value, or positive infinity. */
  lemma CoerceUnsigned(text: string, m: nat, k: nat)
    requires text != "" && text[0] != '-' && text[0] != '+'
    requires UnsignedDecimal(text) == Some((m, k))
    ensures CoerceNumber(text) == if m >= OverflowBound * Pow(10, k) then Infinite(false) else Decimal(m, k)
  {
  }

  /** Decimal text after a minus sign: its negated value, or negative infinity. */
  lemma CoerceSigned(text: string, m: nat, k: nat)
    requires |text| >= 1 && text[0] == '-'
    requires UnsignedDecimal(text[1..]) == Some((m, k))
    ensures CoerceNumber(text) == if m >= OverflowBound * Pow(10, k) then Infinite(true) else Decimal(-(m as int), k)
  {
  }

  /** The issues `z.coerce.number().positive().int()` reports for `text`. */
  function MaxKeysIssues(text: string): (issues: seq<Issue>)
    ensures issues == [] <==> CoerceNumber(text).IsPositive() && CoerceNumber(text).IsInteger()
  {
    var n := CoerceNumber(text);
    if n.NaN? then [Issue(MaxKeysField, NotANumber)]
    else
      (if n.IsPositive() then [] else [Issue(MaxKeysField, TooSmall)])
      + (if n.IsInteger() then [] else [Issue(MaxKeysField, NotInteger)])
  }

  /** `configFactory`: a config, or the list of issues `configSchema.parse` throws. */
  function ConfigFactory(env: Env): (r: Result<Config, seq<Issue>>)
    ensures env.namespace.None? ==> r.Failure? && Issue(NamespaceField, Required) in r.error
    ensures r.Success? ==> env.namespace == Some(r.value.namespace)
    ensures r.Success? ==> r.value.jwksPath == if env.jwksPath.Some? then env.jwksPath.value else DefaultJwksPath
    ensures r.Success? ==> r.value.secretName == if env.secretName.Some? then env.secretName.value else DefaultSecretName
    ensures r.Success? ==> 1 <= r.value.maxKeys < OverflowBound
    ensures r.Success? ==>
      var n := CoerceNumber(if env.maxKeys.Some? then env.maxKeys.value else DefaultMaxKeys);
      n.Decimal? && n.mantissa == r.value.maxKeys * Pow(10, n.scale)
  {
    var raw := WithDefaults(env);
    var issues :=
      (if raw.namespace.None? then [Issue(NamespaceField, Required)] else [])
      + MaxKeysIssues(raw.maxKeys.value);
    if issues != [] then Failure(issues)
    else
      var n := CoerceNumber(raw.maxKeys.value);
      var p := Pow(10, n.scale);
      DivisionExact(n.mantissa, p, OverflowBound);
      Success(Config(raw.jwksPath.value, raw.namespace.value, raw.secretName.value, n.mantissa / p))
  }

  /**
   * `configSchema.parse` accepts exactly a set `NAMESPACE` with a `MAX_KEYS`
   * that raises no issue, and otherwise throws every issue it found: the
   * missing namespace first, then those of `MAX_KEYS`.
   */
  lemma ConfigFactoryDecides(env: Env)
    ensures ConfigFactory(env).Success?
        <==> env.namespace.Some? && MaxKeysIssues(Coalesce(env.maxKeys, DefaultMaxKeys)) == []
    ensures ConfigFactory(env).Failure? ==>
      ConfigFactory(env).error
      == (if env.namespace.None? then [Issue(NamespaceField, Required)] else [])
         + MaxKeysIssues(Coalesce(env.maxKeys, DefaultMaxKeys))
  {
  }

  lemma DivisionExact(m: int, p: int, bound: nat)
    requires p >= 1 && m > 0 && m % p == 0 && m < bound * p
    ensures m / p >= 1 && m == m / p * p && m / p < bound
  {
    var q := m / p;
    assert m == q * p;
    assert (bound - q) * p > 0;
    PositiveFactor(bound - q, p);
  }

  lemma PositiveFactor(a: int, p: int)
    requires p >= 1 && a * p > 0
    ensures a >= 1
  {
  }

  /** With only `NAMESPACE` set, every other field takes its default. */
  lemma ConfigDefaults(namespace: string)
    ensures ConfigFactory(Env(None, Some(namespace), None, None))
         == Success(Config("/tmp/jwks.json", namespace, "jwt-keys", 2))
  {
    assert FromNumeral("2", 10) == 2;
  }

  /** Any positive decimal `MAX_KEYS` below the overflow bound is accepted as exactly that number. */
  lemma AcceptsPositiveDecimal(env: Env, n: nat)
    requires env.namespace.Some?
    requires 1 <= n < OverflowBound && env.maxKeys == Some(ToNumeral(n, 10))
    ensures ConfigFactory(env).Success? && ConfigFactory(env).value.maxKeys == n
  {
    CoerceInteger(n);
  }

  /** A `MAX_KEYS` at or above the overflow bound reads as infinity, which `.int()` rejects. */
  lemma RejectsOverflow(env: Env, n: nat)
    requires n >= OverflowBound && env.maxKeys == Some(ToNumeral(n, 10))
    ensures ConfigFactory(env).Failure?
    ensures Issue(MaxKeysField, NotInteger) in ConfigFactory(env).error
  {
    CoerceInteger(n);
    assert MaxKeysIssues(env.maxKeys.value) == [Issue(MaxKeysField, NotInteger)];
  }

  /** Zero and negative `MAX_KEYS` values are rejected by `.positive()`. */
  lemma RejectsNonPositive(env: Env, n: nat)
    requires env.maxKeys == Some(ToNumeral(n, 10)) || env.maxKeys == Some("-" + ToNumeral(n, 10))
    requires env.maxKeys == Some("-" + ToNumeral(n, 10)) || n == 0
    ensures ConfigFactory(env).Failure?
    ensures Issue(MaxKeysField, TooSmall) in ConfigFactory(env).error
  {
    var text := env.maxKeys.value;
    NonPositiveIssue(text, n);
    assert Coalesce(env.maxKeys, DefaultMaxKeys) == text;
  }

  lemma NonPositiveIssue(text: string, n: nat)
    requires text == "-" + ToNumeral(n, 10) || (n == 0 && text == ToNumeral(n, 10))
    ensures Issue(MaxKeysField, TooSmall) in MaxKeysIssues(text)
  {
    CoerceInteger(n);
    var c := CoerceNumber(text);
    assert c == Decimal(0, 0) || c == Decimal(-(n as int), 0) || c == Infinite(true);
    assert !c.IsPositive();
  }

  /**
   * The number `whole.fraction` reads as: `whole * 10^k + fraction` over
   * `10^k`, or infinity at or above the overflow bound.
   */
  lemma CoerceFraction(whole: nat, fraction: nat)
    ensures var f := ToNumeral(fraction, 10);
      var m := whole * Pow(10, |f|) + fraction;
      CoerceNumber(ToNumeral(whole, 10) + "." + f)
      == if m >= OverflowBound * Pow(10, |f|) then Infinite(false) else Decimal(m, |f|)
  {
    var w, f := ToNumeral(whole, 10), ToNumeral(fraction, 10);
    var m := FractionDigits(whole, fraction);
    CoerceDotted(w, f, m, |f|);
  }

  /** Unsigned `w.f` text, which starts with a digit and so has no sign. */
  lemma CoerceDotted(w: string, f: string, m: nat, k: nat)
    requires |w| >= 1 && IsDigit(w[0], 10)
    requires UnsignedDecimal(w + "." + f) == Some((m, k))
    ensures CoerceNumber(w + "." + f) == if m >= OverflowBound * Pow(10, k) then Infinite(false) else Decimal(m, k)
  {
    var text := w + "." + f;
    assert text[0] == w[0];
    CoerceUnsigned(text, m, k);
  }

  lemma FractionDigits(whole: nat, fraction: nat) returns (m: nat)
    ensures var w, f := ToNumeral(whole, 10), ToNumeral(fraction, 10);
      m == whole * Pow(10, |f|) + fraction && |w| >= 1 && IsDigit(w[0], 10) &&
      UnsignedDecimal(w + "." + f) == Some((m, |f|))
  {
    var w, f := ToNumeral(whole, 10), ToNumeral(fraction, 10);
    var text := w + "." + f;
    DotSplitsNumerals(w, f);
    UnsignedDecimalAtDot(text, |w|);
    assert text[..|w|] + text[|w| + 1..] == w + f;
    assert |text| - |w| - 1 == |f|;
    ValueOfFraction(whole, fraction);
    m := FromNumeral(w + f, 10);
  }

  lemma ValueOfFraction(whole: nat, fraction: nat)
    ensures var w, f := ToNumeral(whole, 10), ToNumeral(fraction, 10);
      IsNumeral(w + f, 10) && FromNumeral(w + f, 10) == whole * Pow(10, |f|) + fraction
  {
    var w, f := ToNumeral(whole, 10), ToNumeral(fraction, 10);
    FromNumeralConcat(w, f, 10);
    FromToNumeral(whole, 10);
    FromToNumeral(fraction, 10);
  }

  /** Unsigned text whose first dot is at `i` reads as the digits around it. */
  lemma UnsignedDecimalAtDot(body: string, i: nat)
    requires IndexOf(body, '.') == Some(i)
    requires IsNumeral(body[..i], 10) && IsNumeral(body[i + 1..], 10)
    requires i + 1 < |body|
    ensures IsNumeral(body[..i] + body[i + 1..], 10)
    ensures UnsignedDecimal(body) == Some((FromNumeral(body[..i] + body[i + 1..], 10), |body| - i - 1))
  {
    var whole, fraction := body[..i], body[i + 1..];
    NumeralConcat(whole, fraction, 10);
    assert |fraction| == |body| - i - 1 && |whole| + |fraction| > 0;
  }

  /** In `whole.fraction` the dot is the first one and splits the two digit runs. */
  lemma DotSplitsNumerals(w: string, f: string)
    requires IsNumeral(w, 10) && IsNumeral(f, 10)
    ensures var text := w + "." + f;
      IndexOf(text, '.') == Some(|w|) && text[..|w|] == w && text[|w| + 1..] == f
  {
    var text := w + "." + f;
    assert text[..|w|] == w;
    assert '.' !in w by {
      assert forall i | 0 <= i < |w| :: IsDigit(w[i], 10);
    }
    assert text[|w|] == '.';
    assert text[|w| + 1..] == f;
  }

  /**
   * A `MAX_KEYS` with a non-zero fractional part, `whole.fraction`, is
   * rejected by `.int()`.
   */
  lemma RejectsFraction(env: Env, whole: nat, fraction: nat)
    requires fraction >= 1
    requires env.maxKeys == Some(ToNumeral(whole, 10) + "." + ToNumeral(fraction, 10))
    ensures ConfigFactory(env).Failure?
    ensures Issue(MaxKeysField, NotInteger) in ConfigFactory(env).error
  {
    var f := ToNumeral(fraction, 10);
    CoerceFraction(whole, fraction);
    NumeralLength(fraction, 10);
    RemainderOfShift(whole, fraction, Pow(10, |f|));
    var text := env.maxKeys.value;
    assert !CoerceNumber(text).IsInteger();
    assert Issue(MaxKeysField, NotInteger) in MaxKeysIssues(text);
  }

  lemma RemainderOfShift(w: nat, d: nat, p: int)
    requires 1 <= d < p
    ensures (w * p + d) % p == d
  {
    var n := w * p + d;
    var q, r := n / p, n % p;
    assert (w - q) * p == r - d;
    if w - q > 0 {
      MulAtLeast(w - q, p);
    } else if w - q < 0 {
      MulAtLeast(q - w, p);
    }
  }

  lemma MulAtLeast(a: int, p: int)
    requires a >= 1 && p >= 1
    ensures a * p >= p
  {
  }
}
