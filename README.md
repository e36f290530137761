# Exit navigation for a WorkAdventure map

A model, in Dafny, of the map script `src/main.ts` of a WorkAdventure room. The
script reads the room's Tiled map, finds the exit areas on its
`roomNavigation` object layer, and shows a banner with the destination's
name while the visitor stands in an exit area. It also shows a clock popup
in the `clock` area.

The model has five modules:

- `Wrappers` (`wrappers.dfy`): `Option`, standing for `undefined`.
- `Tiled` (`tiled.dfy`): the parts of the map document the script reads, as
  typed datatypes. A dynamically checked field becomes a `Value` (string or
  not) or an `Option` (array or not, object or not). `getStringProperty` is a
  recursive scan.
- `ExitLabel` (`label.dfy`): `labelFromExitUrl`. Its regular expressions are
  written out as string functions: strip one trailing `.tmj` in any case,
  replace each run of `-`/`_` by a space, replace each run of white space by
  a space, trim. `IsWhitespace` lists the characters of JavaScript's `\s`.
- `ExitZones` (`zones.dfy`): the choice of the layer and the filter over its
  objects, giving one `(areaName, destinationLabel)` zone per exit object, in
  object order.
- `Navigation` (`navigation.dfy`): the enter/leave handlers and the clock
  popup. The class `ExitNavigation` holds the script's module-level variables
  `activeExitAreaName` and `currentPopup`. Ghost fields hold what the host
  displays: the banner slot and the open popups. The handlers are proved
  against the pure functions `Enter`, `Leave` and `ClosePopupState`. `Run`
  folds a sequence of notifications, and the lemmas about it state what any
  sequence of enters and leaves leaves behind.

The script reads only `exitUrl` and no other property name. It shows only a
banner, with no action prompt and no room change. Its enter handler opens the
banner without closing anything first.

## Model

| member | source | states |
|---|---|---|
| `Tiled.FirstStringValue` | src/main.ts:14-19 | The result is `None` exactly when no entry is an object whose name is the key and whose value is a string. Otherwise it is the value of the first such entry. |
| `Tiled.GetStringProperty` | src/main.ts:12-20 | A `properties` that is not an array gives `undefined`; otherwise the first-match scan decides. |
| `Tiled.NonStringValueSkipped` | src/main.ts:15 | An entry whose name matches but whose value is not a string is passed over: removing it does not change the result. |
| `ExitLabel.StripMapExtension` | src/main.ts:23 | The result is a prefix of the input. Exactly four characters go when the input ends in `.tmj` in any letter case; otherwise nothing changes. |
| `ExitLabel.ReplaceRunsFrom` | src/main.ts:25-26 | The left-to-right scan that performs a global run replacement. The result is never longer than the input; `ReplaceRunsMatchesRuns`, `ReplaceRunsChars` and `ReplaceRunsNoAdjacent` carry its meaning. |
| `ExitLabel.ReplaceRuns` | src/main.ts:25-26 | `replace(/[-_]+/g, ' ')` and `replace(/\s+/g, ' ')`. The result equals the reference reading `RunsAsSpaces`, in which each maximal run becomes one space. Every character of the result is either a written space or a character outside the class that occurs in the input, and no two class characters are adjacent. |
| `ExitLabel.ReplaceRunsMatchesRuns` | src/main.ts:25-26 | The left-to-right scan equals the regex reading: each maximal run of the class becomes one space, and every other character is copied. |
| `ExitLabel.ReplaceRunsChars` | src/main.ts:25-26 | Every character of the result is either a written space or a character outside the class that occurs in the input. |
| `ExitLabel.ReplaceRunsNoAdjacent` | src/main.ts:26 | No two characters of the class are adjacent in the result. |
| `ExitLabel.ReplaceRunsFixed` | src/main.ts:25-26 | A string whose runs are already single spaces comes out unchanged. |
| `ExitLabel.TrimStart` | src/main.ts:27 | The result is a suffix of the input. Everything before it is white space, and it does not start with white space: it is the input without its leading white space. |
| `ExitLabel.TrimEnd` | src/main.ts:27 | The result is a prefix of the input. Everything after it is white space, and it does not end with white space. |
| `ExitLabel.Trim` | src/main.ts:27 | The result is the slice of the input after the leading white space. Everything after the slice is white space, and the slice neither starts nor ends with white space. |
| `ExitLabel.Normalize` | src/main.ts:24-27 | After the three replace/trim steps, the text has no `-` or `_`. It has no white space at either end, only plain spaces, and never two in a row. |
| `ExitLabel.Label` | src/main.ts:22-28 | Every label has no `-` or `_`. It has no leading or trailing white space and no two adjacent white-space characters. |
| `ExitLabel.LabelIdempotent` | src/main.ts:22-28 | Deriving a label from a label gives it back, unless that label still ends in `.tmj`. |
| `ExitLabel.LabelOfLobby` | src/main.ts:22-28 | `"Lobby-Area_2.tmj"` gives `"Lobby Area 2"`. |
| `ExitLabel.LabelOfUpperCaseExtension` | src/main.ts:23 | `"simple.TMJ"` gives `"simple"`: the extension match ignores case. |
| `ExitLabel.EmptyLabels` | src/main.ts:22-28 | `""` and `".tmj"` give the empty label. |
| `ExitLabel.SeparatorsOnlyLabel` | src/main.ts:24-27 | `"--"` gives the empty label. |
| `ExitLabel.LabelStripsOneExtension` | src/main.ts:23 | Only one extension is stripped: `"a.tmj.tmj"` gives `"a.tmj"`. |
| `ExitLabel.LabelNotIdempotent` | src/main.ts:23 | So applying the label function twice can change the result. |
| `ExitZones.FindNavigationLayer` | src/main.ts:45 | The result is `None` exactly when no layer is an object group named `roomNavigation`. Otherwise it is the first such layer. |
| `ExitZones.NavigationObjects` | src/main.ts:45-46 | When the first `roomNavigation` object group has an object array, the result is that array. Any non-empty result is that array, and every other case gives the empty list. |
| `ExitZones.ExitUrlOf` | src/main.ts:49-53 | An object is kept exactly when it has a string name, its type is `area`, and its `exitUrl` is a non-empty string. The URL kept is that `exitUrl`. |
| `ExitZones.ZoneOf` | src/main.ts:48-56 | An object yields a zone exactly when it has a string name, its type is `area`, and its `exitUrl` is a non-empty string. The zone carries that name and the label of that URL. |
| `ExitZones.ZonesOf` | src/main.ts:48-56 | The filter loop over the objects. It yields at most one zone per object. `ExitPositions` and `ZonesInObjectOrder` state the rest: one zone per kept object, in object order. |
| `ExitZones.MapExitZones` | src/main.ts:45-56 | The zones of a map come only from its navigation objects: there are no more zones than objects, and none without objects. `ExitObjectsGiveZones`, `ZonesComeFromExitObjects`, `NoNavigationLayerNoZones` and `NoObjectArrayNoZones` state the rest. |
| `ExitZones.ExitPositions` | src/main.ts:48-53 | The positions of the objects the loop keeps are strictly increasing. They are exactly the positions of the exit objects. |
| `ExitZones.ZonesInObjectOrder` | src/main.ts:48-56 | The zones are the kept objects' zones, one per kept object, in the order of the object list. |
| `ExitZones.ExitObjectsGiveZones` | src/main.ts:45-56 | Every exit object of the navigation layer's object list gives its zone to the map's zones. |
| `ExitZones.ZonesComeFromExitObjects` | src/main.ts:45-56 | Every zone of a map comes from an exit object of its navigation layer. |
| `ExitZones.NoNavigationLayerNoZones` | src/main.ts:45-46 | A map without a `roomNavigation` object group, or without layers, has no exit zones. |
| `ExitZones.NoObjectArrayNoZones` | src/main.ts:46 | A navigation layer whose `objects` is not an array gives no exit zones. |
| `ExitZones.ExitUrlRequired` | src/main.ts:52-53 | An area object without a string `exitUrl`, or with an empty one, is not an exit. No other property name is consulted. |
| `Navigation.Enter` | src/main.ts:58-66 | Whatever the prior state, the area becomes active and the `exit-navigation` banner shows the zone's label. |
| `Navigation.Leave` | src/main.ts:69-73 | A leave of the active area leaves no active area and no banner. A leave of any other area changes nothing. Afterwards the leaving area is not active, and the banner is shown exactly when an area is active. |
| `Navigation.Step` | src/main.ts:58-73 | Each handler keeps the banner shown exactly when an exit area is active. |
| `Navigation.Run` | src/main.ts:58-73 | After any sequence of enters and leaves, the banner is shown exactly when an exit area is active. `RunActive` states which area that is. |
| `Navigation.RunActive` | src/main.ts:58-73 | After any sequence, an area is active exactly when some enter is followed by no other enter and by no leave of its own area. The active area and the banner then belong to that enter's zone; leaves of other areas change nothing. |
| `Navigation.LateLeaveKeepsNewZone` | src/main.ts:58-73 | After enter(A), enter(B), leave(A) for different areas, B is active and B's banner is shown. |
| `Navigation.ClosePopupState` | src/main.ts:84-89 | After `closePopup` there is no handle. One copy of the handle's popup is closed, every other popup stays shown, and without a handle nothing changes. |
| `Navigation.ClosePopupIdempotent` | src/main.ts:84-89 | After `closePopup` there is no handle, and calling it twice equals calling it once. |
| `Navigation.ExitNavigation.constructor` | src/main.ts:7-8 | The script starts with no active exit area, no banner and no popup handle. |
| `Navigation.ExitNavigation.OnEnter` | src/main.ts:58-67 | Whatever the prior state, enter sets `activeExitAreaName` to the area and shows the `exit-navigation` banner with the zone's label. The clock state is untouched. |
| `Navigation.ExitNavigation.OnLeave` | src/main.ts:69-73 | A leave of a non-active area changes nothing. A leave of the active area clears it and closes the banner. Afterwards the banner is shown exactly when an area is still active. |
| `Navigation.ExitNavigation.OnEnterClock` | src/main.ts:35-39 | Entering the clock area opens the `clockPopup` popup with the time text and keeps it as the handle. The exit state is untouched. |
| `Navigation.ExitNavigation.ClosePopup` | src/main.ts:84-89 | A popup is closed only when there is a handle. Afterwards the handle is undefined, and `activeExitAreaName` and the banner are untouched. |
| `Navigation.LateLeaveScenario` | src/main.ts:58-73 | Calling the handlers enter(A), enter(B), leave(A) on the script's state leaves B active with B's banner. |
| `Navigation.ClosePopupTwice` | src/main.ts:84-89 | Two calls of `closePopup` give the state of one call and leave the exit state alone. |

## Left out

- Start-up plumbing is not modelled: `WA.onInit`, the promise from `WA.room.getTiledMap`, `bootstrapExtra`, and all console logging and error catching. They are host calls with no logic.
- The subscription mechanism (`onEnter(...).subscribe`) is not modelled. Each handler is a method, and the stream of notifications is a sequence of calls (`Run`, `LateLeaveScenario`). Registration of the handlers per discovered zone is not modelled either: a handler is called with the zone it was registered for.
- The clock text comes from `new Date()`, which reads the wall clock. It is a parameter of `OnEnterClock`.
- Banner styling (`bgColor`, `textColor`, `closable`) is left out. So are the popup's buttons (there are none) and the host's rendering.
- The dynamic `any` checks become typed datatypes. An entry that is `null`, `undefined` or not an object is `None`. A field the script tests only for being a string is either a string or "something else". A value that is an object but lacks the fields is modelled like any other non-matching entry.
- Strings are sequences of Unicode scalar values. JavaScript strings are UTF-16 code units, so unpaired surrogates are not represented. The white-space set of `\s` and `trim` is listed character by character.
