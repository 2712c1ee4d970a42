/** `formatPlayTime`: a number of seconds as "{h}h {m}m {s}s". */
module FormatUtils {
  import opened JsStrings

  /** Whole hours, the minutes left over, and the seconds left over. */
  function SplitSeconds(t: nat): (r: (nat, nat, nat))
    ensures r.1 < 60 && r.2 < 60
    ensures 3600 * r.0 + 60 * r.1 + r.2 == t
  {
    (t / 3600, (t % 3600) / 60, t % 60)
  }

  /** The split is the only one with minutes and seconds below 60. */
  lemma SplitSecondsUnique(t: nat, h: nat, m: nat, s: nat)
    requires m < 60 && s < 60 && 3600 * h + 60 * m + s == t
    ensures SplitSeconds(t) == (h, m, s)
  {
    var (h', m', s') := SplitSeconds(t);
    assert 60 * m + s < 3600 && 60 * m' + s' < 3600;
    assert 3600 * (h - h') == 60 * m' + s' - (60 * m + s);
    assert 60 * m + s == 60 * m' + s';
  }

  function FormatPlayTime(seconds: nat): string {
    var (h, m, s) := SplitSeconds(seconds);
    NatToString(h) + "h " + NatToString(m) + "m " + NatToString(s) + "s"
  }

  /** Two digit strings each followed by the same non-digit mark split a string the same way. */
  lemma DigitsBeforeMark(x: string, y: string, mark: char, restX: string, restY: string)
    requires AllDigits(x) && AllDigits(y) && !IsDigit(mark)
    requires x + [mark] + restX == y + [mark] + restY
    ensures x == y && restX == restY
  {
    var sx := x + [mark] + restX;
    var sy := y + [mark] + restY;
    assert sx[|x|] == mark && sy[|y|] == mark;
    assert forall i | 0 <= i < |x| :: IsDigit(sx[i]);
    assert forall i | 0 <= i < |y| :: IsDigit(sy[i]);
    assert |x| == |y|;
    assert x == sx[..|x|];
    assert y == sx[..|y|];
    assert restX == sx[|x| + 1..];
  }

  /** The three numbers of a formatted time, each followed by its unit. */
  function Spelled(h: string, m: string, sec: string): string {
    h + ['h'] + ([' '] + (m + ['m'] + ([' '] + (sec + ['s']))))
  }

  lemma FormatPlayTimeSpelled(t: nat)
    ensures var (h, m, s) := SplitSeconds(t);
      FormatPlayTime(t) == Spelled(NatToString(h), NatToString(m), NatToString(s))
  {
  }

  /** The digit runs of a spelled time can be read back one by one. */
  lemma SpelledInjective(ha: string, ma: string, sa: string, hb: string, mb: string, sb: string)
    requires AllDigits(ha) && AllDigits(ma) && AllDigits(sa)
    requires AllDigits(hb) && AllDigits(mb) && AllDigits(sb)
    requires Spelled(ha, ma, sa) == Spelled(hb, mb, sb)
    ensures ha == hb && ma == mb && sa == sb
  {
    var restA, restB := ma + ['m'] + ([' '] + (sa + ['s'])), mb + ['m'] + ([' '] + (sb + ['s']));
    DigitsBeforeMark(ha, hb, 'h', [' '] + restA, [' '] + restB);
    assert ([' '] + restA)[1..] == restA;
    assert ([' '] + restB)[1..] == restB;
    DigitsBeforeMark(ma, mb, 'm', [' '] + (sa + ['s']), [' '] + (sb + ['s']));
    assert ([' '] + (sa + ['s']))[1..] == sa + ['s'];
    assert ([' '] + (sb + ['s']))[1..] == sb + ['s'];
    assert sa == (sa + ['s'])[..|sa|];
    assert sb == (sb + ['s'])[..|sb|];
  }

  /** Different play times are formatted differently: the text determines the seconds. */
  lemma {:induction false} FormatPlayTimeInjective(a: nat, b: nat)
    requires FormatPlayTime(a) == FormatPlayTime(b)
    ensures a == b
  {
    var (ha, ma, sa) := SplitSeconds(a);
    var (hb, mb, sb) := SplitSeconds(b);
    FormatPlayTimeSpelled(a);
    FormatPlayTimeSpelled(b);
    SpelledInjective(NatToString(ha), NatToString(ma), NatToString(sa), NatToString(hb), NatToString(mb), NatToString(sb));
    NatToStringInjective(ha, hb);
    NatToStringInjective(ma, mb);
    NatToStringInjective(sa, sb);
  }
}
