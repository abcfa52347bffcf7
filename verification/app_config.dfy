/** The `appConfig` provider: a configuration record built from five inputs,
    with the flip timings and the layout key derived from them. */
module AppConfig {

  datatype Config = Config(
    theme: string,
    piecesPerRow: int,
    imageRatio: string,
    target: string,
    appPath: string,
    transitionTime: int,
    transitionTimeBetween: int,
    piecesPerRowZero: int,
    pprKey: string,
    transitionTimePadding: int,
    transitionTimeFull: int)

  /** Duration of one flip animation (must match the CSS transition). */
  const FlipDuration: int := 400
  /** Gap between the active tile's flip and its neighbours' flips. */
  const FlipGap: int := 50

  function DigitChar(d: nat): (c: char)
    requires d < 10
    ensures '0' <= c <= '9'
    ensures (c as int) - ('0' as int) == d
  {
    (('0' as int) + d) as char
  }

  predicate IsDigit(c: char) {
    '0' <= c <= '9'
  }

  /** Decimal rendering of a natural number, as Number.prototype.toString does. */
  function NatToString(n: nat): (s: string)
    ensures |s| > 0
    ensures forall i :: 0 <= i < |s| ==> IsDigit(s[i])
    ensures s[0] == '0' ==> n == 0
  {
    if n < 10 then [DigitChar(n)]
    else NatToString(n / 10) + [DigitChar(n % 10)]
  }

  predicate Digits(s: string) {
    forall i :: 0 <= i < |s| ==> IsDigit(s[i])
  }

  /** A digit string, optionally preceded by a minus sign. */
  predicate Numeral(s: string) {
    && |s| > 0
    && (s[0] == '-' ==> Digits(s[1..]))
    && (s[0] != '-' ==> Digits(s))
  }

  /** Decimal rendering of an integer: a minus sign, then the magnitude. */
  function IntToString(n: int): (s: string)
    ensures Numeral(s)
    ensures s[0] == '-' <==> n < 0
  {
    if n < 0 then "-" + NatToString(-n) else NatToString(n)
  }

  /** Reads a string of decimal digits back as a number. */
  function ParseNat(s: string): nat
    requires Digits(s)
  {
    if |s| == 0 then 0
    else
      var d := (s[|s| - 1] as int) - ('0' as int);
      assert IsDigit(s[|s| - 1]);
      ParseNat(s[..|s| - 1]) * 10 + d
  }

  /** Reads an optionally signed decimal string back as an integer. */
  function ParseInt(s: string): int
    requires Numeral(s)
  {
    if s[0] == '-' then -(ParseNat(s[1..]) as int) else ParseNat(s)
  }

  lemma {:induction false} ParseNatToString(n: nat)
    ensures ParseNat(NatToString(n)) == n
  {
    var s := NatToString(n);
    if n >= 10 {
      var prefix := NatToString(n / 10);
      assert s[..|s| - 1] == prefix;
      ParseNatToString(n / 10);
    }
  }

  /** Rendering an integer and reading it back gives the integer. */
  lemma ParseIntToString(n: int)
    ensures ParseInt(IntToString(n)) == n
  {
    var s := IntToString(n);
    if n < 0 {
      assert s[1..] == NatToString(-n);
      ParseNatToString(-n);
    } else {
      ParseNatToString(n);
    }
  }

  /** The key under which the rows of a layout are stored: "ppr_" and the count. */
  function LayoutKey(piecesPerRow: int): (key: string)
    ensures |key| > 4 && key[..4] == "ppr_" && key[4..] == IntToString(piecesPerRow)
    ensures ParseInt(key[4..]) == piecesPerRow
  {
    var key := "ppr_" + IntToString(piecesPerRow);
    assert key[4..] == IntToString(piecesPerRow);
    ParseIntToString(piecesPerRow);
    key
  }

  /** Two layouts with different pieces-per-row never share a key. */
  lemma LayoutKeyInjective(p: int, q: int)
    ensures LayoutKey(p) == LayoutKey(q) <==> p == q
  {
    if LayoutKey(p) == LayoutKey(q) {
      assert LayoutKey(p)[4..] == LayoutKey(q)[4..];
    }
  }

  /** The derived fields agree with what the constructor computes from the inputs. */
  predicate Derived(c: Config) {
    && c.transitionTime == FlipDuration
    && c.transitionTimeBetween == FlipGap
    && c.piecesPerRowZero == c.piecesPerRow - 1
    && c.pprKey == LayoutKey(c.piecesPerRow)
    && c.transitionTimePadding == c.transitionTime + c.transitionTimeBetween
    && c.transitionTimeFull == c.transitionTime * 2 + c.transitionTimeBetween
  }

  /** The provider's `config` constructor. */
  function NewConfig(theme: string, piecesPerRow: int, imageRatio: string,
                     target: string, appPath: string): (c: Config)
    ensures Derived(c)
    ensures c.theme == theme && c.piecesPerRow == piecesPerRow && c.imageRatio == imageRatio
    ensures c.target == target && c.appPath == appPath
    ensures c.transitionTimePadding == 450 && c.transitionTimeFull == 850
    ensures c.transitionTimeFull == c.transitionTimePadding + c.transitionTime
    ensures c.transitionTime < c.transitionTimePadding < c.transitionTimeFull
  {
    var tt := FlipDuration;
    var between := FlipGap;
    Config(theme, piecesPerRow, imageRatio, target, appPath,
           tt, between, piecesPerRow - 1, LayoutKey(piecesPerRow),
           tt + between, tt * 2 + between)
  }

  /** The configuration of the shipped instance of the app. */
  function Instance(): (c: Config)
    ensures Derived(c)
    ensures c.theme == "mk" && c.piecesPerRow == 3 && c.imageRatio == "portrait"
    ensures c.pprKey == "ppr_3" && c.piecesPerRowZero == 2
  {
    NewConfig("mk", 3, "portrait",
              "http://www.benteegarden.com/api/portfolio/mk/mk.jsonp?callback=JSON_CALLBACK",
              "angular-portfolio-app/")
  }
}
