# RTK rover dashboard: telemetry controller

A Dafny model of the live-telemetry logic in the rover's web dashboard
(`RTK_WebUI/web_ui.h`). The header is one HTML page, and all of its logic is
in the inline script. Once a second the page polls `/status`. From the
parsed record it:

- classifies the fix label into a badge class and a marker/needle colour;
- appends the position to a bounded track of 500 points;
- turns the compass needle, unless the heading is invalid;
- redraws the satellite sky plot.

A failed poll changes nothing. At startup the page also fills the SSID list
and pre-selects the configured SSID.

Modules:

- `JsValues`: the JavaScript values modelled for a parsed field: `undefined`, `null`, booleans, numbers, and `NaN` (which `Number(undefined)` yields). It defines truthiness, `Number(...)` and `isNaN`.
- `FixClassifier`: `badgeForFix` and `fixColor` as pure functions over `String.prototype.includes`. `FirstMatch` is an independent reference definition of an ordered first-match policy, and both tables are proved to follow it.
- `TrackBuffer`: one push/shift step. It is proved that any run of pushes leaves exactly the last 500 points.
- `SkyPlot`: the satellite filter, the radius `(90 - el) / 90 * 80` (exact in `real`) and the dot colour. `DrawnIndices` is a reference for which entries are drawn and in what order.
- `Telemetry`: the `Controller` class holding the page state, and its methods for the success and failure branches of `poll`, `updateCompass`, `drawSkyPlot`, `initMap`, `scan`'s list rebuild and `trySelect`.

Notes on the code's behaviour:

- **Track guard.** The guard `map && j.lat && j.lon` rejects a point when *either* coordinate is 0, not only at (0, 0). Over the values modelled, the inner `isNaN` and not-both-zero tests never reject anything (`TrackAcceptsIff`).
- **Null heading.** `poll` calls `updateCompass(Number(j.heading_deg), ...)`. So a `null` heading arrives as 0, and the needle turns to north instead of freezing. Only a missing heading freezes it (`PolledHeadingFreezes`). The `heading === null` test in `updateCompass` can never fire from `poll`.
- **Badge text.** The badge shows "NO FIX" only for a null or empty label. A non-empty label that matches no token is shown as it is, on the grey `text-bg-secondary` badge.
- **Badge colours.** The page's own style sheet paints the four matched badge classes in exactly the marker colours. The grey no-fix badge (`#6c757d`) and the red no-fix marker (`#dc3545`) are the only difference (`BadgeColourMatchesMarker`).
- **DGPS branch.** "DGPS" contains "GPS", so the DGPS branch (`text-bg-info`, `#0dcaf0`) is dead code in both tables (`DgpsBranchNeverFires`).

## Model

| member | source | states |
|---|---|---|
| `JsValues.ToNumber` | RTK_WebUI/web_ui.h:482 | `Number(v)` is always a number or NaN. It is NaN exactly for `undefined`/NaN. `null` gives 0 and numbers are kept. |
| `JsValues.TruthyIsNonZeroNumber` | RTK_WebUI/web_ui.h:481-482 | A value that passes `j.lat && j.lon` converts to a non-zero, non-NaN number. |
| `FixClassifier.ContainsIffOccurs` | RTK_WebUI/web_ui.h:336-339 | The `includes` model holds exactly when the token occurs at some offset of the label. |
| `FixClassifier.DgpsContainsGps` | RTK_WebUI/web_ui.h:338-339 | Every label containing "DGPS" contains "GPS". |
| `FixClassifier.FirstMatch` | RTK_WebUI/web_ui.h:345-349 | Ordered first match: the result is the first token the label contains, with every earlier token absent, or the no-match index. |
| `FixClassifier.Rank` | RTK_WebUI/web_ui.h:335-340 | A label's rank is one of the five branches (0..4). |
| `FixClassifier.BadgeClass` | RTK_WebUI/web_ui.h:335-341 | The badge class is the badge table at the first-match rank of the label (an absent label reads as ""). |
| `FixClassifier.FixColor` | RTK_WebUI/web_ui.h:344-350 | The marker colour is the colour table at the same first-match rank. |
| `FixClassifier.BadgeText` | RTK_WebUI/web_ui.h:334 | The badge text is never blank, and it is the label itself whenever the label is non-empty. |
| `FixClassifier.DgpsRankUnreachable` | RTK_WebUI/web_ui.h:338-339 | No label ever gets the DGPS rank. |
| `FixClassifier.DgpsBranchNeverFires` | RTK_WebUI/web_ui.h:335-349 | `text-bg-info` and `#0dcaf0` are never returned, for any label. |
| `FixClassifier.DgpsLabelShownAsGps` | RTK_WebUI/web_ui.h:347-348 | A DGPS label without "RTK FIX" or "FLOAT" gets `text-bg-primary` and `#0d6efd`. |
| `FixClassifier.RtkFixWins` | RTK_WebUI/web_ui.h:345 | A label containing "RTK FIX" gets `text-bg-success` and `#28a745`, whatever else it contains. |
| `FixClassifier.FloatBeatsGps` | RTK_WebUI/web_ui.h:346 | "FLOAT" without "RTK FIX" gets `text-bg-warning` and `#ffc107`, even with "GPS" present. |
| `FixClassifier.NoLabelDefaults` | RTK_WebUI/web_ui.h:334-340 | A null or empty label shows "NO FIX" with `text-bg-secondary`; its marker is `#dc3545`. |
| `FixClassifier.UnmatchedLabelDefaults` | RTK_WebUI/web_ui.h:340 | A non-empty label with no token shows itself, with the same two different defaults. |
| `FixClassifier.BadgeAndMarkerAgree` | RTK_WebUI/web_ui.h:335-349 | Two labels get the same badge class if and only if they get the same marker colour. |
| `FixClassifier.BadgeBackground` | RTK_WebUI/web_ui.h:89-93 | Each of the five badge classes has a background colour in the page's style sheet. |
| `FixClassifier.BadgeColourMatchesMarker` | RTK_WebUI/web_ui.h:89-93 | For a matched label the badge background equals the marker colour. With no match the badge is grey `#6c757d` and the marker red `#dc3545`. |
| `TrackBuffer.Push` | RTK_WebUI/web_ui.h:492-493 | One append keeps the length at most 500 and puts the point last. Below 500 it only appends. At 500 it drops exactly the oldest point. |
| `TrackBuffer.LastNOfLastN` | RTK_WebUI/web_ui.h:493 | Truncating to the last n points and then appending more, then truncating again, equals truncating once at the end. |
| `TrackBuffer.PushIsLastN` | RTK_WebUI/web_ui.h:492-493 | One push from a track within capacity leaves the last 500 of the old track plus the new point. |
| `TrackBuffer.PushAllIsWindow` | RTK_WebUI/web_ui.h:492-493 | From any track within capacity, successive pushes leave exactly the last 500 of all points, oldest first. |
| `TrackBuffer.FirstPointEvicted` | RTK_WebUI/web_ui.h:328 | From the initial empty track, 501 pushes leave 500 points: all except the first. |
| `SkyPlot.DotColor` | RTK_WebUI/web_ui.h:411 | The colour is `#00ff00` if and only if `used` is truthy, else `#ffaa00`. |
| `SkyPlot.VisibleSats` | RTK_WebUI/web_ui.h:395 | A missing or non-array `sats_detail` draws nothing. |
| `SkyPlot.DrawnIndicesSpec` | RTK_WebUI/web_ui.h:397-403 | The drawn entries are listed ascending, and an entry is listed if and only if it passes the filter. |
| `SkyPlot.VisibleSeqSpec` | RTK_WebUI/web_ui.h:397-411 | Dot k is the dot of the k-th drawn entry, so each drawn satellite appears once, in input order. |
| `SkyPlot.DrawnIff` | RTK_WebUI/web_ui.h:398-403 | A satellite is drawn if and only if `Number(el)` and `Number(az)` are non-NaN and non-negative. |
| `SkyPlot.MissingVersusNullElevation` | RTK_WebUI/web_ui.h:398-403 | A missing `el` hides a satellite. A `null` `el` reads as 0 and is drawn on the horizon ring. |
| `SkyPlot.RadiusRange` | RTK_WebUI/web_ui.h:405 | Radius is 0 at el=90 and 80 at el=0. It is within [0, 80] for el in [0, 90], negative above 90, and strictly decreasing in el. |
| `SkyPlot.ZenithSatellite` | RTK_WebUI/web_ui.h:397-411 | One used satellite at the zenith gives one green dot at the centre. |
| `Telemetry.TrackAcceptsIff` | RTK_WebUI/web_ui.h:481-483 | The append guard holds if and only if the map exists and both coordinates are non-zero numbers or `true`. |
| `Telemetry.ZeroCoordinateRejected` | RTK_WebUI/web_ui.h:481 | A single coordinate that is 0, null, missing or NaN, or a missing map, blocks the append. |
| `Telemetry.TrackPoint` | RTK_WebUI/web_ui.h:482 | The appended point is the pair of numeric coordinates, neither of which is 0. |
| `Telemetry.PolledHeadingFreezes` | RTK_WebUI/web_ui.h:502 | Through `Number(j.heading_deg)`, the compass freezes exactly for a missing or NaN heading. A null heading gives rotation 0. |
| `Telemetry.Controller.constructor` | RTK_WebUI/web_ui.h:328 | Initial page state: empty track, no map, grey "NO FIX" badge, unrotated red needle, empty SSID list with `selectedIndex` -1. |
| `Telemetry.Controller.InitMap` | RTK_WebUI/web_ui.h:354-367 | Without Leaflet nothing changes. With it the map exists and the marker starts `#dc3545`. |
| `Telemetry.Controller.BadgeForFix` | RTK_WebUI/web_ui.h:332-342 | The badge text is the label or "NO FIX", and the class is "badge " followed by `BadgeClass`. |
| `Telemetry.Controller.AppendPoint` | RTK_WebUI/web_ui.h:492-493 | The track becomes `Push(old track, p)` and stays within 500 points. |
| `Telemetry.Controller.UpdateCompass` | RTK_WebUI/web_ui.h:373-378 | A null or NaN heading leaves rotation and colour unchanged. Otherwise rotation is the heading and colour is `FixColor(fix)`. |
| `Telemetry.Controller.DrawSkyPlot` | RTK_WebUI/web_ui.h:380-420 | After the loop, the plot holds exactly `VisibleSats(sats)`. |
| `Telemetry.Controller.ApplyStatus` | RTK_WebUI/web_ui.h:459-503 | Ensures `StatusApplied(j)`, the whole new state after a received record: badge; marker colour and track only when the guard accepts; compass unless frozen; sky plot. Map and SSID state are unchanged, and the invariant is kept. |
| `Telemetry.Controller.ApplyFailure` | RTK_WebUI/web_ui.h:504 | A rejected fetch or unparsable body changes nothing. |
| `Telemetry.Controller.Poll` | RTK_WebUI/web_ui.h:458-505 | One settled poll keeps the invariant (track at most 500). A received record gives the same whole new state as `ApplyStatus` (`StatusApplied`). A failure leaves the whole state as it was. |
| `Telemetry.Controller.ShowNetworks` | RTK_WebUI/web_ui.h:424-430 | The option list becomes the scanned SSIDs, with the first option selected, or none if the list is empty. |
| `Telemetry.Controller.TrySelect` | RTK_WebUI/web_ui.h:439-444 | If the SSID is an option value, `selectedIndex` becomes its first index. Otherwise the selection is unchanged. |
| `Telemetry.Controller.ApplyConfig` | RTK_WebUI/web_ui.h:437-446 | The selection is attempted only for a truthy `c.ssid`. Null or empty leaves it unchanged. |
| `Telemetry.RtkFixRecordView` | RTK_WebUI/web_ui.h:460-503 | The RTK record at (41.1, -74.0) gets badge text "RTK FIX" and class success/green. The guard accepts it and the point is appended. The missing heading freezes the compass, and the zenith satellite is one green centre dot. |
| `Telemetry.ZeroFixRecordView` | RTK_WebUI/web_ui.h:481-502 | The RTK record at (0, 0) still gets the success badge, but the guard rejects it. Its null heading does not freeze the compass and reads as 0. |
| `Telemetry.RtkFixScenario` | RTK_WebUI/web_ui.h:458-503 | An RTK-fixed record at (41.1, -74.0) with a zenith satellite gives a green badge and marker, one track point and one green centre dot. The compass is untouched because the heading is missing. |
| `Telemetry.ZeroFixScenario` | RTK_WebUI/web_ui.h:481-504 | A record at (0, 0) leaves the track empty even with "RTK FIX", and a later failed poll keeps it so. |

## Left out

- HTML/CSS markup and the `#status` template: display only.
- Network requests (`/status`, `/scan`, `/config`, `/save`, `/wifi/retry`, `/reboot`, `/reset`) are left out. A poll is modelled only by its outcome, `Received(record)` or `Failed`, and a scan by the list it returns.
- The configuration form's other fields (`wpass`, `nhost`, … filled with `c.x || ""`) and the save alert: plain field assignments with no logic to verify.
- Timers (`setInterval(poll, 1000)`, `setTimeout(trySelect, 350)`, the 5 s alert hide) are left out. Each callback is modelled as a method the caller invokes, so the race between `scan` and `trySelect`, and overlapping ticks, are not represented.
- Leaflet calls: the marker position, the accuracy circle radius (`hdop * 1.5`), `setLatLngs` and auto-centre `setView` belong to a foreign library. Only `mapPresent` and the marker colour are kept.
- Floating point: the `cos`/`sin` projection of a dot to canvas x/y, and `toFixed(1)` of the heading text. Dots keep their azimuth and radius; the needle keeps the heading value the text is formatted from.
- Canvas drawing of rings, crosshair and labels: rendering side effects.
- String-valued numeric fields (e.g. `"lat":"41.1"`): `Number` of a string would need JavaScript's numeric-string grammar. Infinity can't occur either, since a number is a `real`.
- Exceptions thrown inside the success callback are left out: a truthy `fix` that is neither a string nor an array, a `null` entry in `sats_detail`, or a `null` record. An array-valued `fix` (whose `includes` tests elements) is not modelled either. They end in the same `catch`, after the earlier updates have already been applied.
- Telemetry.Controller.UpdateCompass: requires a non-boolean heading. Its only caller passes a `Number(...)` result, and `toFixed` on a boolean throws.
