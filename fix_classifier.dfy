/**
 * Fix classifier: the status badge class (`badgeForFix`) and the marker /
 * needle colour (`fixColor`) chosen from a GNSS fix label by an ordered,
 * first-match substring test.
 */
module FixClassifier {
  import opened JsValues

  /** `s.startsWith(t)`. */
  predicate StartsWith(s: string, t: string)
  {
    |t| <= |s| && s[..|t|] == t
  }

  /** `s.includes(t)`: `t` occurs somewhere in `s` (the empty string always does). */
  predicate Contains(s: string, t: string)
    decreases |s|
  {
    StartsWith(s, t) || (|s| > 0 && Contains(s[1..], t))
  }

  /** `t` occurs in `s` at offset `i`. */
  predicate OccursAt(s: string, t: string, i: int)
  {
    0 <= i && i + |t| <= |s| && s[i..i + |t|] == t
  }

  /** `Contains` is substring occurrence at some offset, in both directions. */
  lemma {:induction false} ContainsIffOccurs(s: string, t: string)
    ensures Contains(s, t) <==> exists i :: OccursAt(s, t, i)
    decreases |s|
  {
    if Contains(s, t) {
      if StartsWith(s, t) {
        assert OccursAt(s, t, 0);
      } else {
        ContainsIffOccurs(s[1..], t);
        var i :| OccursAt(s[1..], t, i);
        assert s[1..][i..i + |t|] == s[i + 1..i + 1 + |t|];
        assert OccursAt(s, t, i + 1);
      }
    }
    if exists i :: OccursAt(s, t, i) {
      var i :| OccursAt(s, t, i);
      if i == 0 {
        assert StartsWith(s, t);
      } else {
        assert s[1..][i - 1..i - 1 + |t|] == s[i..i + |t|];
        assert OccursAt(s[1..], t, i - 1);
        ContainsIffOccurs(s[1..], t);
      }
    }
  }

  /** Every label that contains "DGPS" also contains "GPS". */
  lemma {:induction false} DgpsContainsGps(s: string)
    requires Contains(s, "DGPS")
    ensures Contains(s, "GPS")
    decreases |s|
  {
    if StartsWith(s, "DGPS") {
      assert s[..4] == "DGPS";
      assert s[1..][..3] == s[..4][1..];
      assert StartsWith(s[1..], "GPS");
    } else {
      DgpsContainsGps(s[1..]);
    }
  }

  /** `fix || ""`: a missing, null or empty label reads as "". */
  function Label(fix: Option<string>): string
  {
    match fix
    case None => ""
    case Some(s) => s
  }

  /** The tokens the classifier tests for, in the order it tests them. */
  const Priority: seq<string> := ["RTK FIX", "FLOAT", "GPS", "DGPS"]

  /** Badge classes by rank; the last one is the no-match default. */
  const BadgeStyles: seq<string> :=
    ["text-bg-success", "text-bg-warning", "text-bg-primary", "text-bg-info", "text-bg-secondary"]

  /** Marker colours by rank; the last one is the no-match default. */
  const MarkerColors: seq<string> := ["#28a745", "#ffc107", "#0d6efd", "#0dcaf0", "#dc3545"]

  /** Reference definition of an ordered first-match policy: the index of the
      first token at or after `from` that the label contains, or `|tokens|`. */
  function FirstMatch(fixText: string, tokens: seq<string>, from: nat): (k: nat)
    requires from <= |tokens|
    ensures from <= k <= |tokens|
    ensures k < |tokens| ==> Contains(fixText, tokens[k])
    ensures forall j :: from <= j < k ==> !Contains(fixText, tokens[j])
    decreases |tokens| - from
  {
    if from == |tokens| then |tokens|
    else if Contains(fixText, tokens[from]) then from
    else FirstMatch(fixText, tokens, from + 1)
  }

  /** The classification rank of a label: 0 RTK fixed, 1 float, 2 GPS,
      3 DGPS, 4 no fix. */
  function Rank(fix: Option<string>): (k: nat)
    ensures k <= 4
  {
    FirstMatch(Label(fix), Priority, 0)
  }

  /** The class `badgeForFix` puts after "badge ". */
  function BadgeClass(fix: Option<string>): (r: string)
    ensures r == BadgeStyles[Rank(fix)]
  {
    var l := Label(fix);
    if Contains(l, "RTK FIX") then "text-bg-success"
    else if Contains(l, "FLOAT") then "text-bg-warning"
    else if Contains(l, "GPS") then "text-bg-primary"
    else if Contains(l, "DGPS") then "text-bg-info"
    else "text-bg-secondary"
  }

  /** `fixColor`: the marker, accuracy circle and compass needle colour. */
  function FixColor(fix: Option<string>): (r: string)
    ensures r == MarkerColors[Rank(fix)]
  {
    var l := Label(fix);
    if Contains(l, "RTK FIX") then "#28a745"
    else if Contains(l, "FLOAT") then "#ffc107"
    else if Contains(l, "GPS") then "#0d6efd"
    else if Contains(l, "DGPS") then "#0dcaf0"
    else "#dc3545"
  }

  /** The text `badgeForFix` shows: the label, or "NO FIX" when there is none. */
  function BadgeText(fix: Option<string>): (r: string)
    ensures r != ""
    ensures Label(fix) != "" ==> r == Label(fix)
  {
    if Label(fix) != "" then Label(fix) else "NO FIX"
  }

  /** The DGPS rank can never be chosen: "GPS" is tested first and matches. */
  lemma DgpsRankUnreachable(fix: Option<string>)
    ensures Rank(fix) != 3
  {
    if Rank(fix) == 3 {
      DgpsContainsGps(Label(fix));
    }
  }

  /** Neither the `text-bg-info` badge nor the cyan marker is ever produced. */
  lemma DgpsBranchNeverFires(fix: Option<string>)
    ensures BadgeClass(fix) != "text-bg-info"
    ensures FixColor(fix) != "#0dcaf0"
  {
    DgpsRankUnreachable(fix);
  }

  /** A DGPS label without "RTK FIX" or "FLOAT" is shown as plain GPS. */
  lemma DgpsLabelShownAsGps(fix: Option<string>)
    requires Contains(Label(fix), "DGPS")
    requires !Contains(Label(fix), "RTK FIX") && !Contains(Label(fix), "FLOAT")
    ensures BadgeClass(fix) == "text-bg-primary"
    ensures FixColor(fix) == "#0d6efd"
  {
    DgpsContainsGps(Label(fix));
  }

  /** "RTK FIX" wins over every other token the label may contain. */
  lemma RtkFixWins(fix: Option<string>)
    requires Contains(Label(fix), "RTK FIX")
    ensures BadgeClass(fix) == "text-bg-success"
    ensures FixColor(fix) == "#28a745"
  {
  }

  /** "FLOAT" wins over "GPS" when "RTK FIX" is absent. */
  lemma FloatBeatsGps(fix: Option<string>)
    requires Contains(Label(fix), "FLOAT") && !Contains(Label(fix), "RTK FIX")
    ensures BadgeClass(fix) == "text-bg-warning"
    ensures FixColor(fix) == "#ffc107"
  {
  }

  /** A null or empty label shows "NO FIX" on a grey badge and gives a red
      marker: the two defaults differ. */
  lemma NoLabelDefaults(fix: Option<string>)
    requires fix == None || fix == Some("")
    ensures BadgeText(fix) == "NO FIX"
    ensures BadgeClass(fix) == "text-bg-secondary"
    ensures FixColor(fix) == "#dc3545"
  {
    assert !Contains("", "RTK FIX") && !Contains("", "FLOAT") && !Contains("", "GPS") && !Contains("", "DGPS");
  }

  /** A label with none of the tokens gets the same defaults, but its badge
      shows the label itself. */
  lemma UnmatchedLabelDefaults(fixText: string)
    requires fixText != ""
    requires forall t :: t in Priority ==> !Contains(fixText, t)
    ensures BadgeText(Some(fixText)) == fixText
    ensures BadgeClass(Some(fixText)) == "text-bg-secondary"
    ensures FixColor(Some(fixText)) == "#dc3545"
  {
    assert Priority[0] in Priority && Priority[1] in Priority;
    assert Priority[2] in Priority && Priority[3] in Priority;
  }

  /** Badge and marker pick the same branch: two labels get the same badge
      class exactly when they get the same marker colour. */
  lemma BadgeAndMarkerAgree(f: Option<string>, g: Option<string>)
    ensures BadgeClass(f) == BadgeClass(g) <==> FixColor(f) == FixColor(g)
  {
    var i, j := Rank(f), Rank(g);
    assert BadgeStyles[i] == BadgeStyles[j] <==> i == j;
    assert MarkerColors[i] == MarkerColors[j] <==> i == j;
  }

  /** The badge's background colour, as the page's own style sheet gives it
      for each badge class. */
  function BadgeBackground(badgeClass: string): (c: string)
    ensures badgeClass in BadgeStyles ==> c != ""
  {
    if badgeClass == "text-bg-secondary" then "#6c757d"
    else if badgeClass == "text-bg-success" then "#28a745"
    else if badgeClass == "text-bg-warning" then "#ffc107"
    else if badgeClass == "text-bg-primary" then "#0d6efd"
    else if badgeClass == "text-bg-info" then "#0dcaf0"
    else ""
  }

  /** The badge is painted in the marker's colour for every matched label;
      only the no-match defaults differ: a grey badge beside a red marker. */
  lemma BadgeColourMatchesMarker(fix: Option<string>)
    ensures Rank(fix) < 4 ==> BadgeBackground(BadgeClass(fix)) == FixColor(fix)
    ensures Rank(fix) == 4 ==>
      BadgeBackground(BadgeClass(fix)) == "#6c757d" && FixColor(fix) == "#dc3545"
  {
    var k := Rank(fix);
    assert k == 0 || k == 1 || k == 2 || k == 3 || k == 4;
  }
}
