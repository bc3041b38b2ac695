/**
 * Matchup coordinates and their "round-index" string form, the key under
 * which every stored pick map files its picks ("1-0", "5-1", "6-0").
 */
module MatchupKeys {
  import opened Wrappers

  /** A matchup coordinate: the round (1..6) and the matchup's index inside it. */
  datatype Key = Key(round: nat, idx: nat)

  predicate IsDigit(c: char) { '0' <= c <= '9' }

  predicate AllDigits(s: string) { forall i :: 0 <= i < |s| ==> IsDigit(s[i]) }

  function DigitChar(d: nat): (c: char)
    requires d < 10
    ensures IsDigit(c) && c as int - '0' as int == d
  {
    (d + '0' as int) as char
  }

  /** Decimal form of a natural number, as a template literal prints it. */
  function NatToString(n: nat): (s: string)
    ensures |s| > 0 && AllDigits(s)
  {
    if n < 10 then [DigitChar(n)] else NatToString(n / 10) + [DigitChar(n % 10)]
  }

  /** The value of a string of decimal digits (what `Number` gives for one). */
  function DigitsValue(s: string): nat
    requires AllDigits(s)
  {
    if |s| == 0 then 0 else 10 * DigitsValue(s[..|s| - 1]) + (s[|s| - 1] as int - '0' as int)
  }

  lemma {:induction false} DigitsValueOfNatToString(n: nat)
    ensures DigitsValue(NatToString(n)) == n
  {
    if n >= 10 {
      var s := NatToString(n);
      assert s[..|s| - 1] == NatToString(n / 10);
      DigitsValueOfNatToString(n / 10);
    }
  }

  /** Index of the first '-' in s, if any. */
  function FindDash(s: string): (r: Option<nat>)
    ensures r.Some? ==> r.value < |s| && s[r.value] == '-' && forall j :: 0 <= j < r.value ==> s[j] != '-'
    ensures r.None? ==> forall j :: 0 <= j < |s| ==> s[j] != '-'
  {
    if |s| == 0 then None
    else if s[0] == '-' then Some(0)
    else match FindDash(s[1..])
      case None => None
      case Some(j) => Some(j + 1)
  }

  /** `matchupKey(round, matchupIndex)`: the key string "round-index". */
  function KeyString(k: Key): string
  {
    NatToString(k.round) + "-" + NatToString(k.idx)
  }

  /**
   * `parseMatchupKey`: splits at the dash and reads both halves as numbers.
   * Only strings of the form digits '-' digits are parsed; anything else is
   * reported as missing.
   */
  function ParseKey(s: string): (r: Option<Key>)
    ensures r.Some? ==> exists p :: 0 < p < |s| - 1 && s[p] == '-' && AllDigits(s[..p]) && AllDigits(s[p + 1..])
  {
    match FindDash(s)
    case None => None
    case Some(p) =>
      var a, b := s[..p], s[p + 1..];
      if a != [] && b != [] && AllDigits(a) && AllDigits(b) then Some(Key(DigitsValue(a), DigitsValue(b)))
      else None
  }

  /** Parsing a serialised key gives the coordinate back. */
  lemma {:induction false} ParseKeyString(k: Key)
    ensures ParseKey(KeyString(k)) == Some(k)
  {
    var a, b := NatToString(k.round), NatToString(k.idx);
    var s := KeyString(k);
    assert s == a + "-" + b;
    assert s[|a|] == '-';
    var d := FindDash(s);
    assert forall j :: 0 <= j < |a| ==> s[j] == a[j] && s[j] != '-';
    assert d == Some(|a|);
    assert s[..|a|] == a;
    assert s[|a| + 1..] == b;
    DigitsValueOfNatToString(k.round);
    DigitsValueOfNatToString(k.idx);
  }

  /** Distinct coordinates have distinct key strings, so keys may stand for their strings. */
  lemma KeyStringInjective(k1: Key, k2: Key)
    ensures KeyString(k1) == KeyString(k2) <==> k1 == k2
  {
    if KeyString(k1) == KeyString(k2) {
      ParseKeyString(k1);
      ParseKeyString(k2);
    }
  }
}
