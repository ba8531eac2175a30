/**
 * The dashboard's telemetry controller: the page-wide state the script
 * keeps (the track, the badge, the compass needle, the sky plot, the SSID
 * list) and the updates `poll`, `badgeForFix`, `updateCompass`,
 * `drawSkyPlot`, `initMap`, `scan` and `loadConfig` apply to it.
 */
module Telemetry {
  import opened JsValues
  import opened FixClassifier
  import opened TrackBuffer
  import opened SkyPlot

  /** The fields of a `/status` response that the controller reads. */
  datatype StatusRecord = StatusRecord(
    fix: Option<string>,
    lat: JsValue,
    lon: JsValue,
    headingDeg: JsValue,
    satsDetail: Option<seq<SatObservation>>)

  /** How one `fetch('/status')` ended: a parsed record, or a rejected fetch /
      unparsable body (both end in the empty `catch`). */
  datatype PollOutcome = Received(record: StatusRecord) | Failed

  /** The guard around the map update and track append in `poll`, as written:
      the map exists, `j.lat && j.lon`, neither `Number` is NaN, and they are
      not both 0. */
  predicate TrackAccepts(mapPresent: bool, lat: JsValue, lon: JsValue)
  {
    && mapPresent && Truthy(lat) && Truthy(lon)
    && var la, lo := ToNumber(lat), ToNumber(lon);
       !IsNaN(la) && !IsNaN(lo) && (IsNotZero(la) || IsNotZero(lo))
  }

  /** A coordinate that passes JavaScript's truthiness test: `true` or a
      non-zero number. */
  predicate NonZeroCoordinate(v: JsValue)
  {
    v == Bool(true) || (v.Num? && v.r != 0.0)
  }

  /** The guard accepts exactly when the map exists and both coordinates are
      non-zero: the inner NaN and not-both-zero tests never reject anything
      the truthiness test let through. */
  lemma TrackAcceptsIff(mapPresent: bool, lat: JsValue, lon: JsValue)
    ensures TrackAccepts(mapPresent, lat, lon) <==>
      mapPresent && NonZeroCoordinate(lat) && NonZeroCoordinate(lon)
  {
    if mapPresent && Truthy(lat) && Truthy(lon) {
      TruthyIsNonZeroNumber(lat);
      TruthyIsNonZeroNumber(lon);
    }
  }

  /** A single zero coordinate already blocks the append, not only (0, 0);
      so do missing and null coordinates, and a missing map. */
  lemma ZeroCoordinateRejected(mapPresent: bool, lat: JsValue, lon: JsValue)
    requires lat in {Num(0.0), Null, Undefined, NaN} || lon in {Num(0.0), Null, Undefined, NaN} || !mapPresent
    ensures !TrackAccepts(mapPresent, lat, lon)
  {
    TrackAcceptsIff(mapPresent, lat, lon);
  }

  /** The point appended for an accepted record. */
  function TrackPoint(lat: JsValue, lon: JsValue): (p: Point)
    requires Truthy(lat) && Truthy(lon)
    ensures p.0 != 0.0 && p.1 != 0.0
    ensures lat.Num? ==> p.0 == lat.r
    ensures lon.Num? ==> p.1 == lon.r
  {
    TruthyIsNonZeroNumber(lat);
    TruthyIsNonZeroNumber(lon);
    (ToNumber(lat).r, ToNumber(lon).r)
  }

  /** `heading === null || isNaN(heading)`: `updateCompass` leaves the needle
      as it is. */
  predicate CompassFreezes(heading: JsValue)
  {
    heading.Null? || IsNaN(heading)
  }

  /** `poll` passes `Number(j.heading_deg)`: only a missing (or NaN) heading
      freezes the compass; a `null` heading becomes 0 and turns the needle
      to north. */
  lemma PolledHeadingFreezes(h: JsValue)
    ensures CompassFreezes(ToNumber(h)) <==> h.Undefined? || h.NaN?
    ensures h.Null? ==> !CompassFreezes(ToNumber(h)) && ToNumber(h).r == 0.0
  {
  }

  /** The page's state. Initially: empty track, no map, a grey "NO FIX"
      badge, an unrotated red needle showing "---", a blank sky plot and an
      empty SSID list. */
  class Controller {
    /** `track`: accepted positions, oldest first. */
    var track: seq<Point>
    /** `map` is defined: Leaflet loaded and `initMap` ran. */
    var mapPresent: bool
    /** Fill colour of the position marker (and the accuracy circle). */
    var markerColor: string
    /** The needle's `rotate(...deg)`; the heading text shows the same value
        to one decimal. `None` until a valid heading arrives. */
    var needleRotation: Option<real>
    /** The needle's background colour. */
    var needleColor: string
    /** `#fixBadge`'s text and full class attribute. */
    var badgeText: string
    var badgeClass: string
    /** The dots on the sky plot canvas, in drawing order. */
    var skyDots: seq<Dot>
    /** The values of `#ssidSel`'s options and its `selectedIndex`. */
    var options: seq<string>
    var selectedIndex: int

    /** The invariants every update keeps: the track within capacity and
        empty until there is a map, and the selection a valid option index
        (-1 only for an empty list). */
    ghost predicate Valid()
      reads this
    {
      && |track| <= Capacity
      && (!mapPresent ==> track == [])
      && -1 <= selectedIndex < |options|
      && (selectedIndex == -1 <==> options == [])
    }

    constructor ()
      ensures Valid()
      ensures track == [] && !mapPresent && markerColor == "#dc3545"
      ensures needleRotation == None && needleColor == "red"
      ensures badgeText == "NO FIX" && badgeClass == "badge text-bg-secondary"
      ensures skyDots == [] && options == [] && selectedIndex == -1
    {
      track := [];
      mapPresent := false;
      markerColor := "#dc3545";
      needleRotation := None;
      needleColor := "red";
      badgeText := "NO FIX";
      badgeClass := "badge text-bg-secondary";
      skyDots := [];
      options := [];
      selectedIndex := -1;
    }

    /** `initMap`: without Leaflet nothing happens; with it the map exists
        and the marker starts red. */
    method InitMap(leafletAvailable: bool)
      requires Valid()
      modifies this`mapPresent, this`markerColor
      ensures Valid()
      ensures mapPresent == (old(mapPresent) || leafletAvailable)
      ensures markerColor == if leafletAvailable then "#dc3545" else old(markerColor)
    {
      if leafletAvailable {
        mapPresent := true;
        markerColor := "#dc3545";
      }
    }

    /** `badgeForFix`. */
    method BadgeForFix(fix: Option<string>)
      modifies this`badgeText, this`badgeClass
      ensures badgeText == BadgeText(fix)
      ensures badgeClass == "badge " + BadgeClass(fix)
    {
      badgeText := BadgeText(fix);
      badgeClass := "badge " + BadgeClass(fix);
    }

    /** `track.push([lat, lon]); if (track.length > 500) track.shift();` */
    method AppendPoint(p: Point)
      requires Valid() && mapPresent
      modifies this`track
      ensures Valid()
      ensures track == Push(old(track), p)
      ensures |old(track)| < Capacity ==> track == old(track) + [p]
      ensures |old(track)| == Capacity ==> track == old(track)[1..] + [p]
    {
      track := track + [p];
      if |track| > Capacity {
        track := track[1..];
      }
    }

    /** `updateCompass(heading, fix)`; `poll` only ever passes a number. */
    method UpdateCompass(heading: JsValue, fix: Option<string>)
      requires !heading.Bool?
      modifies this`needleRotation, this`needleColor
      ensures CompassFreezes(heading) ==>
        needleRotation == old(needleRotation) && needleColor == old(needleColor)
      ensures !CompassFreezes(heading) ==>
        heading.Num? && needleRotation == Some(heading.r) && needleColor == FixColor(fix)
    {
      if heading.Null? || IsNaN(heading) {
        return;
      }
      needleRotation := Some(heading.r);
      needleColor := FixColor(fix);
    }

    /** `drawSkyPlot(sats)`: clear the canvas, then draw a dot for each entry
        that passes the filter, in array order. */
    method DrawSkyPlot(sats: Option<seq<SatObservation>>)
      modifies this`skyDots
      ensures skyDots == VisibleSats(sats)
    {
      skyDots := [];
      if sats.None? {
        return;
      }
      var xs := sats.value;
      var i := 0;
      while i < |xs|
        invariant 0 <= i <= |xs|
        invariant skyDots == VisibleSeq(xs[..i])
      {
        assert xs[..i + 1][..i] == xs[..i];
        var s := xs[i];
        if Drawn(s) {
          skyDots := skyDots + [DotOf(s)];
        }
        i := i + 1;
      }
      assert xs[..i] == xs;
    }

    /** The whole new state after `poll`'s success branch has applied the
        record `j`: badge; marker colour and track only when the guard
        accepts; compass unless it freezes; sky plot; everything else as it
        was. */
    twostate predicate StatusApplied(j: StatusRecord)
      reads this
    {
      && badgeText == BadgeText(j.fix) && badgeClass == "badge " + BadgeClass(j.fix)
      && (TrackAccepts(old(mapPresent), j.lat, j.lon) ==>
            track == Push(old(track), TrackPoint(j.lat, j.lon)) && markerColor == FixColor(j.fix))
      && (!TrackAccepts(old(mapPresent), j.lat, j.lon) ==>
            track == old(track) && markerColor == old(markerColor))
      && (CompassFreezes(ToNumber(j.headingDeg)) ==>
            needleRotation == old(needleRotation) && needleColor == old(needleColor))
      && (!CompassFreezes(ToNumber(j.headingDeg)) ==>
            needleRotation == Some(ToNumber(j.headingDeg).r) && needleColor == FixColor(j.fix))
      && skyDots == VisibleSats(j.satsDetail)
      && mapPresent == old(mapPresent)
      && options == old(options) && selectedIndex == old(selectedIndex)
    }

    /** The success branch of `poll`: badge, then (guarded) marker and
        track, then compass, then sky plot. */
    method ApplyStatus(j: StatusRecord)
      requires Valid()
      modifies this
      ensures Valid()
      ensures StatusApplied(j)
    {
      BadgeForFix(j.fix);
      if mapPresent && Truthy(j.lat) && Truthy(j.lon) {
        var lat, lon := ToNumber(j.lat), ToNumber(j.lon);
        if !IsNaN(lat) && !IsNaN(lon) && (IsNotZero(lat) || IsNotZero(lon)) {
          markerColor := FixColor(j.fix);
          AppendPoint((lat.r, lon.r));
        }
      }
      UpdateCompass(ToNumber(j.headingDeg), j.fix);
      DrawSkyPlot(j.satsDetail);
    }

    /** The `catch(()=>{})` of `poll`: nothing changes. */
    method ApplyFailure()
      ensures unchanged(this)
    {
    }

    /** One poll tick, after its fetch has settled. */
    method Poll(outcome: PollOutcome)
      requires Valid()
      modifies this
      ensures Valid()
      ensures outcome.Received? ==> StatusApplied(outcome.record)
      ensures outcome.Failed? ==> unchanged(this)
    {
      match outcome
      case Received(j) => ApplyStatus(j);
      case Failed => ApplyFailure();
    }

    /** `scan`'s handler: the option list is rebuilt from the SSIDs; a
        single-choice select then has its first option selected, or none. */
    method ShowNetworks(ssids: seq<string>)
      requires Valid()
      modifies this`options, this`selectedIndex
      ensures Valid()
      ensures options == ssids
      ensures selectedIndex == if ssids == [] then -1 else 0
    {
      options := ssids;
      selectedIndex := if ssids == [] then -1 else 0;
    }

    /** `trySelect`: select the first option whose value is `ssid`; keep the
        selection when none is. */
    method TrySelect(ssid: string)
      requires Valid()
      modifies this`selectedIndex
      ensures Valid()
      ensures ssid in options ==>
        0 <= selectedIndex < |options| && options[selectedIndex] == ssid &&
        forall k :: 0 <= k < selectedIndex ==> options[k] != ssid
      ensures ssid !in options ==> selectedIndex == old(selectedIndex)
    {
      var i := 0;
      while i < |options|
        invariant 0 <= i <= |options|
        invariant forall k :: 0 <= k < i ==> options[k] != ssid
        invariant selectedIndex == old(selectedIndex)
      {
        if options[i] == ssid {
          selectedIndex := i;
          break;
        }
        i := i + 1;
      }
    }

    /** `loadConfig`'s SSID handling: `trySelect` runs only for a truthy
        `c.ssid` (its 350 ms delay is not modelled). */
    method ApplyConfig(ssid: Option<string>)
      requires Valid()
      modifies this`selectedIndex
      ensures Valid()
      ensures (ssid == None || ssid == Some("")) ==> selectedIndex == old(selectedIndex)
      ensures ssid.Some? && ssid.value != "" && ssid.value in options ==>
        options[selectedIndex] == ssid.value &&
        forall k :: 0 <= k < selectedIndex ==> options[k] != ssid.value
      ensures ssid.Some? && ssid.value !in options ==> selectedIndex == old(selectedIndex)
    {
      if ssid.Some? && ssid.value != "" {
        TrySelect(ssid.value);
      }
    }
  }

  /** An RTK-fixed record at (41.1, -74.0) with one used satellite at the
      zenith and no heading. */
  const RtkFixRecord: StatusRecord :=
    StatusRecord(Some("RTK FIX"), Num(41.1), Num(-74.0), Undefined,
                 Some([SatObservation(Num(5.0), Num(0.0), Num(90.0), Bool(true))]))

  /** An RTK-fixed record at (0, 0) with a `null` heading. */
  const ZeroFixRecord: StatusRecord :=
    StatusRecord(Some("RTK FIX"), Num(0.0), Num(0.0), Null, None)

  /** What each part of the controller makes of `RtkFixRecord`. */
  lemma RtkFixRecordView()
    ensures BadgeText(RtkFixRecord.fix) == "RTK FIX"
    ensures "badge " + BadgeClass(RtkFixRecord.fix) == "badge text-bg-success"
    ensures FixColor(RtkFixRecord.fix) == "#28a745"
    ensures TrackAccepts(true, RtkFixRecord.lat, RtkFixRecord.lon)
    ensures Push([], TrackPoint(RtkFixRecord.lat, RtkFixRecord.lon)) == [(41.1, -74.0)]
    ensures CompassFreezes(ToNumber(RtkFixRecord.headingDeg))
    ensures VisibleSats(RtkFixRecord.satsDetail) == [Dot(Num(5.0), 0.0, 0.0, "#00ff00")]
  {
    assert StartsWith("RTK FIX", "RTK FIX");
    RtkFixWins(RtkFixRecord.fix);
    ZenithSatellite();
  }

  /** What each part of the controller makes of `ZeroFixRecord`. */
  lemma ZeroFixRecordView()
    ensures "badge " + BadgeClass(ZeroFixRecord.fix) == "badge text-bg-success"
    ensures !TrackAccepts(true, ZeroFixRecord.lat, ZeroFixRecord.lon)
    ensures !CompassFreezes(ToNumber(ZeroFixRecord.headingDeg))
    ensures ToNumber(ZeroFixRecord.headingDeg).r == 0.0
  {
    assert StartsWith("RTK FIX", "RTK FIX");
    RtkFixWins(ZeroFixRecord.fix);
    ZeroCoordinateRejected(true, ZeroFixRecord.lat, ZeroFixRecord.lon);
  }

  /** A fresh page that polls `RtkFixRecord`: green badge and marker, one
      track point, one green dot at the centre, compass untouched. */
  method RtkFixScenario() returns (c: Controller)
    ensures c.Valid()
    ensures c.badgeText == "RTK FIX" && c.badgeClass == "badge text-bg-success"
    ensures c.markerColor == "#28a745"
    ensures c.track == [(41.1, -74.0)]
    ensures c.skyDots == [Dot(Num(5.0), 0.0, 0.0, "#00ff00")]
    ensures c.needleRotation == None && c.needleColor == "red"
  {
    c := new Controller();
    c.InitMap(true);
    RtkFixRecordView();
    c.Poll(Received(RtkFixRecord));
  }

  /** `ZeroFixRecord`, then a failed poll, leave the track empty; the `null`
      heading turns the needle to 0. */
  method ZeroFixScenario() returns (c: Controller)
    ensures c.Valid()
    ensures c.track == []
    ensures c.badgeClass == "badge text-bg-success"
    ensures c.needleRotation == Some(0.0)
  {
    c := new Controller();
    c.InitMap(true);
    ZeroFixRecordView();
    c.Poll(Received(ZeroFixRecord));
    c.Poll(Failed);
  }
}
