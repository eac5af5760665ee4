/** The progress summary shown on the page: the rounded percentage, the
    width of the progress fill and the text label. */
module Progress {
  import opened Text

  /** `Math.round(completed / total * 100)`, or 0 for an empty page, in exact
      integer arithmetic: the nearest integer to 100·completed/total, with
      halves rounded up. */
  function Percentage(completed: nat, total: nat): (p: nat)
    requires completed <= total
    ensures total == 0 ==> p == 0
    ensures total > 0 ==> 2 * total * p <= 200 * completed + total < 2 * total * (p + 1)
    ensures p <= 100
  {
    if total > 0 then
      var p := (200 * completed + total) / (2 * total);
      DivBounds(200 * completed + total, 2 * total);
      assert p <= 100 by {
        if p > 100 {
          MulLe(2 * total, 101, p);
        }
      }
      p
    else 0
  }

  /** Floor division brackets its dividend. */
  lemma DivBounds(x: nat, d: nat)
    requires d > 0
    ensures d * (x / d) <= x < d * (x / d + 1)
  {
    assert x == d * (x / d) + x % d;
    assert d * (x / d + 1) == d * (x / d) + d;
  }

  lemma MulLe(k: nat, a: nat, b: nat)
    requires a <= b
    ensures k * a <= k * b
  {
    assert k * b == k * a + k * (b - a);
  }

  /** The only integer satisfying the rounding bounds is the percentage. */
  lemma PercentageUnique(completed: nat, total: nat, q: nat)
    requires completed <= total && total > 0
    requires 2 * total * q <= 200 * completed + total < 2 * total * (q + 1)
    ensures q == Percentage(completed, total)
  {
    var p := Percentage(completed, total);
    if q < p {
      MulLe(2 * total, q + 1, p);
    } else if q > p {
      MulLe(2 * total, p + 1, q);
    }
  }

  /** No topic checked shows 0%. */
  lemma PercentageZero(total: nat)
    ensures Percentage(0, total) == 0
  {
    var p := Percentage(0, total);
    if p >= 1 {
      MulLe(2 * total, 1, p);
    }
  }

  /** The percentage shows 100 exactly when the unchecked controls are at
      most half a percent of all of them. */
  lemma PercentageIsHundred(completed: nat, total: nat)
    requires completed <= total && total > 0
    ensures Percentage(completed, total) == 100 <==> 200 * (total - completed) <= total
  {
    var p := Percentage(completed, total);
    if 200 * (total - completed) <= total {
      assert 2 * total * 100 <= 200 * completed + total < 2 * total * 101;
      PercentageUnique(completed, total, 100);
    }
  }

  /** On a page with fewer than 200 topics, 100% means every topic is done. */
  lemma HundredMeansAllOnSmallPages(completed: nat, total: nat)
    requires completed <= total && 0 < total < 200
    ensures Percentage(completed, total) == 100 <==> completed == total
  {
    PercentageIsHundred(completed, total);
  }

  /** On a page with 200 or more topics, one unchecked topic still rounds to 100%. */
  lemma HundredWithOneLeft(total: nat)
    requires total >= 200
    ensures Percentage(total - 1, total) == 100
  {
    PercentageIsHundred(total - 1, total);
  }

  /** Checking more topics never lowers the percentage. */
  lemma PercentageMonotone(c1: nat, c2: nat, total: nat)
    requires c1 <= c2 <= total
    ensures Percentage(c1, total) <= Percentage(c2, total)
  {
    if total > 0 {
      var p1, p2 := Percentage(c1, total), Percentage(c2, total);
      if p1 > p2 {
        MulLe(2 * total, p2 + 1, p1);
      }
    }
  }

  /** The style width of the progress fill, `${percentage}%`. */
  function FillWidth(percentage: nat): string {
    NatToString(percentage) + "%"
  }

  /** The progress text, `${percentage}% Complete (${completed}/${total})`. */
  function Label(percentage: nat, completed: nat, total: nat): string {
    NatToString(percentage) + ("% Complete (" + (NatToString(completed) + ("/" + (NatToString(total) + ")"))))
  }

  /** Reads a fill width back into its percentage. */
  function ParseFillWidth(w: string): Option<nat> {
    match ReadNat(w)
    case Some((p, rest)) => if rest == "%" then Some(p) else None
    case None => None
  }

  /** Reads the `<completed>/<total>)` tail of a label. */
  function ParseCounts(s: string): Option<(nat, nat)> {
    match ReadNat(s)
    case None => None
    case Some((c, r1)) =>
      match Strip("/", r1)
      case None => None
      case Some(r2) =>
        match ReadNat(r2)
        case None => None
        case Some((t, r3)) => if r3 == ")" then Some((c, t)) else None
  }

  /** Reads a progress label back into (percentage, completed, total). */
  function ParseLabel(s: string): Option<(nat, nat, nat)> {
    match ReadNat(s)
    case None => None
    case Some((p, r1)) =>
      match Strip("% Complete (", r1)
      case None => None
      case Some(r2) =>
        match ParseCounts(r2)
        case None => None
        case Some((c, t)) => Some((p, c, t))
  }

  lemma FillWidthRoundTrip(p: nat)
    ensures ParseFillWidth(FillWidth(p)) == Some(p)
  {
    ReadNatToString(p, "%");
  }

  lemma ParseCountsRoundTrip(c: nat, t: nat)
    ensures ParseCounts(NatToString(c) + ("/" + (NatToString(t) + ")"))) == Some((c, t))
  {
    var tail := NatToString(t) + ")";
    assert ("/" + tail)[0] == '/';
    ReadNatToString(c, "/" + tail);
    StripOf("/", tail);
    ReadNatToString(t, ")");
  }

  /** The label determines the three numbers it was printed from. */
  lemma LabelRoundTrip(p: nat, c: nat, t: nat)
    ensures ParseLabel(Label(p, c, t)) == Some((p, c, t))
  {
    var counts := NatToString(c) + ("/" + (NatToString(t) + ")"));
    var tail := "% Complete (" + counts;
    assert tail[0] == '%';
    ReadNatToString(p, tail);
    StripOf("% Complete (", counts);
    ParseCountsRoundTrip(c, t);
  }

  /** Two summaries print the same label only if they are the same summary. */
  lemma LabelInjective(p1: nat, c1: nat, t1: nat, p2: nat, c2: nat, t2: nat)
    requires Label(p1, c1, t1) == Label(p2, c2, t2)
    ensures p1 == p2 && c1 == c2 && t1 == t2
  {
    LabelRoundTrip(p1, c1, t1);
    LabelRoundTrip(p2, c2, t2);
  }

  /** Five topics with two checked show 40%; with all five checked, 100%. */
  lemma FiveTopicsExample()
    ensures Percentage(2, 5) == 40 && Label(40, 2, 5) == "40% Complete (2/5)"
    ensures FillWidth(40) == "40%"
    ensures Percentage(5, 5) == 100 && Label(100, 5, 5) == "100% Complete (5/5)"
  {
    assert NatToString(40) == "40" by {
      assert NatToString(4) == "4";
      assert NatToString(0) == "0";
    }
    assert NatToString(100) == "100" by {
      assert NatToString(10) == "10" by {
        assert NatToString(1) == "1";
        assert NatToString(0) == "0";
      }
    }
    assert NatToString(2) == "2";
    assert NatToString(5) == "5";
  }
}
