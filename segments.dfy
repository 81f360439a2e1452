/**
 * The segment classifier `rfm_segment_detail`. The repository carries two copies of
 * it: the one in rfm.py tests the score cells for NaN before turning them into text,
 * the one in prepare_data.py turns them into text first and looks for the text "nan".
 * Both are modelled as written and proved to agree on every input.
 */
module Segments {

  /** A quartile label as the scorer assigns it. */
  type Quartile = k: int | 1 <= k <= 4 witness 1

  /** One cell of an R_Score, F_Score or M_Score column: a label, or NaN. */
  datatype Score = NaN | Label(q: Quartile)

  /** The closed set of segment names the classifier can return. */
  datatype Segment =
    | Champions | LoyalCustomers | PotentialLoyalist | Promising
    | NewCustomers | NeedAttention | AboutToSleep | AtRisk
    | CantLoseThem | Hibernating | Lost | Others

  /** The text written into the Segment column. */
  function Name(s: Segment): string
  {
    match s
    case Champions => "Champions"
    case LoyalCustomers => "Loyal Customers"
    case PotentialLoyalist => "Potential Loyalist"
    case Promising => "Promising"
    case NewCustomers => "New Customers"
    case NeedAttention => "Need Attention"
    case AboutToSleep => "About to Sleep"
    case AtRisk => "At Risk"
    case CantLoseThem => "Can't Lose Them"
    case Hibernating => "Hibernating"
    case Lost => "Lost"
    case Others => "Others"
  }

  /** Distinct segments are written as distinct texts, so the column can be read back. */
  lemma NameInjective(a: Segment, b: Segment)
    ensures Name(a) == Name(b) ==> a == b
  {
  }

  /** `str()` of a score cell: the label's single digit, or "nan" for a missing score. */
  function Text(s: Score): (t: string)
    ensures t == "nan" <==> s.NaN?
    ensures s.Label? ==> |t| == 1 && '1' <= t[0] <= '4' && t[0] as int - '0' as int == s.q
  {
    match s
    case NaN => "nan"
    case Label(q) =>
      if q == 1 then "1" else if q == 2 then "2" else if q == 3 then "3" else "4"
  }

  /**
   * The copy in rfm.py: a missing score gives Others; otherwise the ordered rule table
   * over the digit texts, first match wins, Others when nothing matches.
   */
  function Classify(r: Score, f: Score, m: Score): (seg: Segment)
    ensures (r.NaN? || f.NaN? || m.NaN?) ==> seg == Others
  {
    if r.NaN? || f.NaN? || m.NaN? then Others
    else
      var rText, fText, mText := Text(r), Text(f), Text(m);
      var rfText := rText + fText;
      if rfText in ["44", "43", "34", "33"] && mText == "4" then Champions
      else if rfText in ["44", "43", "34", "33"] && mText == "3" then LoyalCustomers
      else if rfText in ["44", "43", "34", "33"] && mText == "2" then PotentialLoyalist
      else if rfText in ["44", "43", "34", "33"] && mText == "1" then Promising
      else if rfText in ["42", "41", "32", "31"] && mText in ["4", "3"] then NewCustomers
      else if rfText in ["42", "41", "32", "31"] && mText in ["2", "1"] then NeedAttention
      else if rText == "2" && fText in ["4", "3"] then AtRisk
      else if rText == "2" && fText == "2" then AboutToSleep
      else if rText == "2" && fText == "1" then Hibernating
      else if rText == "1" && fText in ["4", "3"] then CantLoseThem
      else if rText == "1" && fText == "2" then Hibernating
      else if rText == "1" && fText == "1" then Lost
      else Others
  }

  /**
   * The copy in prepare_data.py: it works on the texts of the three cells and
   * detects a missing score by the text "nan".
   */
  function ClassifyText(r: string, f: string, m: string): (seg: Segment)
    ensures (r == "nan" || f == "nan" || m == "nan") ==> seg == Others
  {
    if r == "nan" || f == "nan" || m == "nan" then Others
    else
      var rf := r + f;
      if rf in ["44", "43", "34", "33"] && m == "4" then Champions
      else if rf in ["44", "43", "34", "33"] && m == "3" then LoyalCustomers
      else if rf in ["44", "43", "34", "33"] && m == "2" then PotentialLoyalist
      else if rf in ["44", "43", "34", "33"] && m == "1" then Promising
      else if rf in ["42", "41", "32", "31"] && m in ["4", "3"] then NewCustomers
      else if rf in ["42", "41", "32", "31"] && m in ["2", "1"] then NeedAttention
      else if r == "2" && f in ["4", "3"] then AtRisk
      else if r == "2" && f == "2" then AboutToSleep
      else if r == "2" && f == "1" then Hibernating
      else if r == "1" && f in ["4", "3"] then CantLoseThem
      else if r == "1" && f == "2" then Hibernating
      else if r == "1" && f == "1" then Lost
      else Others
  }

  /**
   * The rule table read as arithmetic on the three quartiles: recent and frequent
   * customers are split by spend, recent but infrequent ones by whether spend is in
   * the upper half, and the two least recent quartiles by frequency alone.
   */
  function Reference(r: Quartile, f: Quartile, m: Quartile): Segment
  {
    if r >= 3 && f >= 3 then
      (if m == 4 then Champions else if m == 3 then LoyalCustomers
       else if m == 2 then PotentialLoyalist else Promising)
    else if r >= 3 then
      (if m >= 3 then NewCustomers else NeedAttention)
    else if r == 2 then
      (if f >= 3 then AtRisk else if f == 2 then AboutToSleep else Hibernating)
    else
      (if f >= 3 then CantLoseThem else if f == 2 then Hibernating else Lost)
  }

  /** The rfm.py copy computes the arithmetic reading on every one of the 64 defined triples. */
  lemma ClassifyMatchesReference(r: Quartile, f: Quartile, m: Quartile)
    ensures Classify(Label(r), Label(f), Label(m)) == Reference(r, f, m)
  {
    var rT, fT, mT := Text(Label(r)), Text(Label(f)), Text(Label(m));
    assert rT == [rT[0]] && fT == [fT[0]] && mT == [mT[0]];
    assert rT + fT == [rT[0], fT[0]];
  }

  /** Totality: a defined triple never reaches the fallback, so Others means a missing score. */
  lemma OthersOnlyWhenUndefined(r: Score, f: Score, m: Score)
    ensures Classify(r, f, m) == Others <==> (r.NaN? || f.NaN? || m.NaN?)
  {
    if r.Label? && f.Label? && m.Label? {
      ClassifyMatchesReference(r.q, f.q, m.q);
    }
  }

  /** rf in {44, 43, 34, 33}: the segment is decided by m alone. */
  lemma RecentAndFrequent(r: Quartile, f: Quartile, m: Quartile)
    requires r >= 3 && f >= 3
    ensures m == 4 <==> Classify(Label(r), Label(f), Label(m)) == Champions
    ensures m == 3 <==> Classify(Label(r), Label(f), Label(m)) == LoyalCustomers
    ensures m == 2 <==> Classify(Label(r), Label(f), Label(m)) == PotentialLoyalist
    ensures m == 1 <==> Classify(Label(r), Label(f), Label(m)) == Promising
  {
    ClassifyMatchesReference(r, f, m);
  }

  /** rf in {42, 41, 32, 31}: New Customers for m in {4, 3}, Need Attention for m in {2, 1}. */
  lemma RecentButInfrequent(r: Quartile, f: Quartile, m: Quartile)
    requires r >= 3 && f <= 2
    ensures m >= 3 <==> Classify(Label(r), Label(f), Label(m)) == NewCustomers
    ensures m <= 2 <==> Classify(Label(r), Label(f), Label(m)) == NeedAttention
  {
    ClassifyMatchesReference(r, f, m);
  }

  /** r = 2: At Risk for f in {4, 3}, About to Sleep for f = 2, Hibernating for f = 1, whatever m is. */
  lemma FadingRecency(f: Quartile, m: Quartile)
    ensures f >= 3 <==> Classify(Label(2), Label(f), Label(m)) == AtRisk
    ensures f == 2 <==> Classify(Label(2), Label(f), Label(m)) == AboutToSleep
    ensures f == 1 <==> Classify(Label(2), Label(f), Label(m)) == Hibernating
  {
    ClassifyMatchesReference(2, f, m);
  }

  /** r = 1: Can't Lose Them for f in {4, 3}, Hibernating for f = 2, Lost for f = 1, whatever m is. */
  lemma LowestRecency(f: Quartile, m: Quartile)
    ensures f >= 3 <==> Classify(Label(1), Label(f), Label(m)) == CantLoseThem
    ensures f == 2 <==> Classify(Label(1), Label(f), Label(m)) == Hibernating
    ensures f == 1 <==> Classify(Label(1), Label(f), Label(m)) == Lost
  {
    ClassifyMatchesReference(1, f, m);
  }

  /** The two copies of the rule table return the same segment for every triple of cells. */
  lemma CopiesAgree(r: Score, f: Score, m: Score)
    ensures ClassifyText(Text(r), Text(f), Text(m)) == Classify(r, f, m)
  {
  }

  /** Worked triples: (3,2,1) lands in the second rf bucket with low spend; (4,4,4) and (1,1,1) are the extremes. */
  lemma WorkedTriples()
    ensures Classify(Label(3), Label(2), Label(1)) == NeedAttention
    ensures ClassifyText("3", "2", "1") == NeedAttention
    ensures Classify(Label(4), Label(4), Label(4)) == Champions
    ensures ClassifyText("4", "4", "4") == Champions
    ensures Classify(Label(1), Label(1), Label(1)) == Lost
    ensures ClassifyText("1", "1", "1") == Lost
  {
    ClassifyMatchesReference(3, 2, 1);
    ClassifyMatchesReference(4, 4, 4);
    ClassifyMatchesReference(1, 1, 1);
    CopiesAgree(Label(3), Label(2), Label(1));
    CopiesAgree(Label(4), Label(4), Label(4));
    CopiesAgree(Label(1), Label(1), Label(1));
  }
}
