# plasma-clock-oled: layout, placement and settings reader

plasma-clock-oled draws a small clock inside a KDE Plasma panel and moves it
to a new random spot along the panel every so often, so that an OLED screen
does not burn in. This project models the two parts of the program that hold
real logic and proves what they promise.

- **The settings reader** (`src/KDEClockConfig.cpp`) reads two Plasma files.
  `plasma-org.kde.plasma.desktop-appletsrc` gives the digital clock's
  Appearance settings and the panel's location and screen. `plasmashellrc`
  gives the panel's thickness and floating flag.
  - It finds bracket-delimited sections with regular expressions. Each
    expression is written out here as an explicit string function (module
    `SectionMatch`): a head of literals and `\d+` runs, then a `[^\[]*` run.
    The run is captured whole, or must contain a needle, or must be followed
    by a closing literal.
  - `key=value` pairs are read with `readValue`, `readInt` and `readBool`.
    QString's `trimmed`, `toInt` and `number` are written out in module `Text`.
  - File contents arrive as `Option<string>`; `None` is a file that could not
    be opened. Every missing file, section or key, and every value that does
    not convert, falls back to the struct defaults of `src/KDEClockConfig.h`.
  - `KDEPanelConfig::load` walks the panel-containment matches in a `while`
    loop (`KdeConfig.FindClockPanel`). That loop is proved equal to "the
    leftmost qualifying containment" (`KdeConfig.ClockPanelId`).
- **The widget** (`src/ClockWidget.cpp`) is a class (`ClockWidgetModel.ClockWidget`).
  Its fields mirror `m_kdeConfig`, `m_panelConfig`, the two labels, the widget
  size, `m_panelRect`, `m_minPos`, `m_maxPos`, and the anchors and margins
  last given to the layer shell.
  - `setupAppearance` runs 20-attempt font-size searches (module `Layout`).
    A vertical panel fits each label's width on its own; a horizontal panel
    fits the stacked time and date in its height. The sizes are then clamped
    to 8 px, and the labels are positioned and centred.
  - `calculateBounds`, `randomPosition`, `repositionClock` and
    `configureLayerShell` choose the jitter range, the position, the margins
    and the anchors (module `Placement`).
  - `reloadConfig` re-reads the panel settings and rebuilds the widget only
    when thickness or location changed.
  - Font metrics (`horizontalAdvance`, `capHeight`, `ascent`) and the width
    of a label after `adjustSize` are functions of the pixel size, carried in
    `Layout.Metrics`. The random generator is a nondeterministic choice. The
    primary screen's geometry is a parameter.

Behaviour of the code that the model keeps as written:

- Each file-change signal schedules its own reload, and nothing merges them
  (`src/ClockWidget.cpp:462`). `OnConfigFilesChanged` runs one reload per
  signal. Every reload after the first changes nothing, because the first
  one already adopted the file's thickness and location.
- The reload compares thickness and location, not the orientation. A change
  of screen or of the floating flag alone is ignored.
- On a horizontal panel without a date, the time size is
  `thickness * 0.71` on every attempt. The ratio that shrinks is never
  applied, so the search never shrinks (`Layout.NoDateNeverShrinks`).
- The date size is 0.8 of the time size only as searched. The clamp to 8 px
  applies to each size on its own.
- In the floating expression the `[^\[]*` run must end right before a
  `[Defaults]` header, and the capture ends with that header. So it matches at
  a `[PlasmaViews][Panel N][Defaults]` header with the capture "[Defaults]",
  which holds no `floating=` line
  (`KdeConfig.FloatingAtDefaultsHeader`). The widget never reads the flag.

## Model

| member | source | states |
|---|---|---|
| Text.FirstFrom | src/KDEClockConfig.cpp:11-12 | The leftmost position in a range that satisfies a predicate: it satisfies it and none before it does; `None` means none in the range does. This is how every unanchored match picks its start. |
| Text.LastFrom | src/KDEClockConfig.cpp:46 | The rightmost position in a range that satisfies a predicate, and none after it does. This is where a greedy `[^\[]*` followed by a literal stops. |
| Text.StopAt | src/KDEClockConfig.cpp:57 | A `[^c]*` run ends at the first `c` or at the end of the text, and holds no `c`. |
| Text.ContainsAt | src/KDEClockConfig.cpp:53-54 | `QString::contains` holds whenever the text occurs at some position. |
| Text.ContainsWitness | src/KDEClockConfig.cpp:53-54 | Conversely, `contains` gives a position where the text occurs. |
| Text.Trim | src/KDEClockConfig.cpp:13 | `trimmed()` returns a slice of the input with only whitespace before and after it, and the slice neither starts nor ends with whitespace. |
| Text.TrimIdempotent | src/KDEClockConfig.cpp:13 | Trimming twice is trimming once. |
| Text.ParseIntAccepts | src/KDEClockConfig.cpp:21-24 | `toInt(&ok)` succeeds exactly when the trimmed text splits into an optional sign ("", "+" or "-") and one or more decimal digits whose signed value fits an `int`, and it then yields that value. |
| Text.NumberToString | src/KDEClockConfig.cpp:21 | `QString::number`. Specified by `NumberTrimmed` (no surrounding whitespace, never empty) and `ParseIntRoundTrip`: every `int` it writes reads back through `toInt` as the same `int`. |
| Text.ParseIntRoundTrip | src/KDEClockConfig.cpp:21-24 | An `int` written by `QString::number` reads back as the same `int`. So a default that went through `readValue` as text is returned unchanged. |
| SectionMatch.DigitRun | src/KDEClockConfig.cpp:46 | `\d+` before `\]` takes the maximal run of ASCII digits: every character of the run is a digit and the next one is not. |
| SectionMatch.MatchAt | src/KDEClockConfig.cpp:57-60 | A match anchored at a position: its head matches there, the capture is the text between head and end, and each tail kind holds. A captured run ends at the next '[' or the end of the text. A run with a needle holds no '[' and ends right after the needle's LAST occurrence in the run, as greedy `[^\[]*` does. A run with a closing literal ends with it. |
| SectionMatch.LitHead | src/KDEClockConfig.cpp:57 | An escaped literal header matches at a position exactly when it occurs there, and the head then ends right after it. |
| SectionMatch.MatchAtAfterHead | src/KDEClockConfig.cpp:46-60 | Once the head matches, a captured run always matches; a run with a needle matches exactly when the needle occurs inside the run; a run with a closing literal matches exactly when the literal follows the run. |
| SectionMatch.Find | src/KDEClockConfig.cpp:58 | `QRegularExpression::match` returns the leftmost match: no earlier position matches; `None` means no position matches. |
| KdeConfig.PanelConfig.PanelRect | src/KDEClockConfig.cpp:97-116 | `getPanelRect`. Specified by `PanelRectSides` and `PanelRectOnEdge`. |
| KdeConfig.PanelRectSides | src/KDEClockConfig.cpp:97-116 | `getPanelRect`'s short side is the thickness. Its long side is the screen's width for codes treated as horizontal, and the screen's height for 5 and 6. |
| KdeConfig.PanelRectOnEdge | src/KDEClockConfig.cpp:97-116 | Top and left strips start at the screen origin. Bottom is flush with the screen's bottom and right with its right edge. Unknown codes behave as bottom. A strip no thicker than the screen lies inside it. |
| KdeConfig.FindValueIsFirst | src/KDEClockConfig.cpp:9-17 | `readValue`'s value comes from the first `key=` followed by at least one non-newline character, trimmed and running to the line's end. |
| KdeConfig.FindValueNone | src/KDEClockConfig.cpp:9-17 | There is no value, and `readValue` falls back to its default, exactly when no `key=` is followed by a non-newline character. |
| KdeConfig.ReadValue | src/KDEClockConfig.cpp:9-17 | `readValue`. Specified by `FindValueIsFirst` and `FindValueNone`: the trimmed value of the first `key=` line with a non-empty rest, and the default when there is none. |
| KdeConfig.ReadInt | src/KDEClockConfig.cpp:19-25 | `readInt`. Specified by `ReadIntTotal`, with `ParseIntRoundTrip` for the default passed through as text. |
| KdeConfig.ReadBool | src/KDEClockConfig.cpp:27-31 | `readBool`. Specified by `ReadBoolTotal`. |
| KdeConfig.ReadIntTotal | src/KDEClockConfig.cpp:19-25 | `readInt` gives the default for a missing key, the integer for a value that converts, and the default for any other value. |
| KdeConfig.ReadBoolTotal | src/KDEClockConfig.cpp:27-31 | `readBool` gives the default for a missing key. For a present value it is true exactly when the value is "true" or "1", whatever the default. |
| KdeConfig.SectionAfterFirstHeader | src/KDEClockConfig.cpp:57-60 | For a `([^\[]*)` expression, the captured section is the text from the end of the FIRST header match up to the next '[' or the end of the file. So keys of later sections are never read. |
| KdeConfig.SectionMissingWithoutHeader | src/KDEClockConfig.cpp:57-60 | Such an expression fails to match exactly when its header occurs nowhere in the file. |
| KdeConfig.ContainmentSectionAfterHeader | src/KDEClockConfig.cpp:57-60 | `sectionRx` captures the text after the first `[Containments][<id>]` up to the next '['. |
| KdeConfig.ClockAppletNumbers | src/KDEClockConfig.cpp:136-144 | The applet expression has two `\d+` runs, and its one capture group is the second. So `numbers[1]`, the text `captured(1)` returns, always exists. |
| KdeConfig.LoadClock | src/KDEClockConfig.cpp:118-166 | `KDEClockConfig::load`. Specified by `LoadClockFields` and `LoadClockDefaults`. |
| KdeConfig.LoadClockFields | src/KDEClockConfig.cpp:118-166 | Each field of `KDEClockConfig::load` is its setting from the clock applet's Appearance section when the setting is present and converts. Otherwise it is the struct default: true, "shortDate", "ddd d", 1, 1, 0. |
| KdeConfig.LoadClockDefaults | src/KDEClockConfig.cpp:118-166 | With no file, no clock applet, no Appearance section, or none of the six keys, the result is exactly the struct defaults. |
| KdeConfig.PanelContainmentShape | src/KDEClockConfig.cpp:46 | A panel-containment match starts with "[Containments][", has a non-empty digit capture closed by ']', and has no '[' after its head. |
| KdeConfig.NoPanelMatchInside | src/KDEClockConfig.cpp:47-49 | No panel-containment match starts strictly inside another. So `globalMatch`, resuming at each match's end, skips no match the leftmost search would find. |
| KdeConfig.FindClockPanel | src/KDEClockConfig.cpp:46-66 | The `globalMatch` loop with its `break` returns the number of the leftmost `org.kde.panel` containment that has an `[Applets]` header, provided the clock plugin occurs in the file. |
| KdeConfig.ClockPanelFirst | src/KDEClockConfig.cpp:48-65 | A containment that qualifies, with none qualifying before it, is the one chosen. |
| KdeConfig.ClockPanelChosen | src/KDEClockConfig.cpp:48-65 | Conversely, the chosen containment qualifies: it has an `[Applets]` header, the clock plugin is in the file, and no earlier containment qualifies. |
| KdeConfig.ReadPlacement | src/KDEClockConfig.cpp:36-67 | The appletsrc half of `KDEPanelConfig::load` computes `PanelPlacement`: location and screen from the chosen containment's section, and the defaults otherwise. |
| KdeConfig.PanelSpec | src/KDEClockConfig.cpp:33-95 | `KDEPanelConfig::load` as a function of both files. Specified by `PanelPlacementFields`, `PanelWithoutClockPlugin`, `PanelThickness`, `PanelFloatingField` and `FloatingAtDefaultsHeader`. |
| KdeConfig.LoadPanel | src/KDEClockConfig.cpp:33-95 | `KDEPanelConfig::load` computes `PanelSpec`: the placement, then thickness and floating from plasmashellrc when their expressions match. |
| KdeConfig.PanelWithoutClockPlugin | src/KDEClockConfig.cpp:41-66 | Without the file, or without the clock plugin anywhere in it, location stays 4 and screen stays 0. |
| KdeConfig.PanelPlacementFields | src/KDEClockConfig.cpp:57-63 | Location and screen are the chosen section's `location` and `lastScreen` when they convert, and 4 and 0 otherwise. |
| KdeConfig.PanelThickness | src/KDEClockConfig.cpp:77-83 | Thickness is the first `[PlasmaViews][Panel N][Defaults]` section's `thickness` when it converts, and 44 otherwise. |
| KdeConfig.PanelFloatingField | src/KDEClockConfig.cpp:85-91 | Floating is read from the floating expression's capture, and is false when the expression does not match. |
| KdeConfig.FloatingAtDefaultsHeader | src/KDEClockConfig.cpp:86-90 | When the floating expression matches at a `[Defaults]` header, its capture "[Defaults]" holds no `floating=` line, so floating is false. |
| Cpp.Trunc | src/ClockWidget.cpp:139 | `static_cast<int>` of a double rounds toward zero: the result is within one below a non-negative value, and within one above a negative one. |
| Cpp.TruncMonotone | src/ClockWidget.cpp:139 | Truncation is monotone. |
| Cpp.TruncScaleMonotone | src/ClockWidget.cpp:139 | `static_cast<int>(a * ratio)` with `a >= 0` does not decrease when the ratio grows. |
| Layout.ScaledMonotone | src/ClockWidget.cpp:139 | A non-negative size scaled and truncated does not shrink when the ratio grows. |
| Cpp.Half | src/ClockWidget.cpp:263 | C++ `a / 2` rounds toward zero: for `a >= 0` twice the quotient is `a` or `a - 1`; for a negative `a` it is `a` or `a + 1`. |
| Layout.VerticalIsSideEdge | src/ClockWidget.cpp:294-297 | A panel is vertical exactly when its location is a side edge, codes 5 and 6. |
| Layout.TimeSample | src/ClockWidget.cpp:114-117 | The time sample measured by the search. Specified by `TimeSampleParts`. |
| Layout.DateSample | src/ClockWidget.cpp:120-127 | The date sample measured by the search. Specified by `DateSampleOtherFormats`. |
| Layout.TimeSampleParts | src/ClockWidget.cpp:114-117 | The time sample has seconds exactly when `showSeconds` is 2, and " AM" exactly when `use24hFormat` is 0. |
| Layout.DateSampleOtherFormats | src/ClockWidget.cpp:120-127 | Every date format other than longDate and isoDate, custom included, uses the "00.00.0000" sample. |
| Layout.ShrunkBounds | src/ClockWidget.cpp:147 | The ratio schedule `start * 0.9^k` stays positive, never exceeds its start, and never grows. |
| Layout.VerticalSizeShrinks | src/ClockWidget.cpp:137-147 | The vertical search tries the thickness first, and its sizes never grow or go below 0. |
| Layout.VerticalFrom | src/ClockWidget.cpp:138-148 | The vertical search from attempt `k` on. Specified by `VerticalFirstFit` and `VerticalNoFit`; `SearchVertical` is its loop. |
| Layout.VerticalFirstFit | src/ClockWidget.cpp:138-148 | The vertical search keeps the first attempt whose sample advance is at most `thickness - 4`, and records that size's cap height. |
| Layout.VerticalNoFit | src/ClockWidget.cpp:138-148 | When no attempt fits, the 20th attempt's size is kept and the cap height stays 0. |
| Layout.SearchVertical | src/ClockWidget.cpp:136-163 | The loop with `break` computes the vertical search result. |
| Layout.HorizontalFrom | src/ClockWidget.cpp:171-197 | The horizontal search from attempt `k` on. Specified by `HorizontalFirstFit`, `HorizontalNoFit`, `HorizontalFromIsAttempt`, `NoDateNeverShrinks` and `DateFollowsTime`; `SearchHorizontal` is its loop. |
| Layout.HorizontalFirstFit | src/ClockWidget.cpp:171-197 | The horizontal search keeps the first attempt whose stacked height `timeCap + 2`, plus `4 + dateCap + 2` with a date, fits the thickness. |
| Layout.HorizontalNoFit | src/ClockWidget.cpp:171-197 | When no attempt fits, the 20th attempt's sizes and cap heights are kept. |
| Layout.HorizontalFromIsAttempt | src/ClockWidget.cpp:171-197 | The horizontal result is always one whole attempt. Sizes and cap heights are never mixed across attempts. |
| Layout.NoDateNeverShrinks | src/ClockWidget.cpp:175-176 | Without a date the time size is `thickness * 0.71` truncated, and the date size and cap height are 0. |
| Layout.DateFollowsTime | src/ClockWidget.cpp:172-174 | With a date, the date size is 0.8 of the chosen time size, truncated, and each cap height belongs to its size. |
| Layout.SearchHorizontal | src/ClockWidget.cpp:165-198 | The horizontal loop with `break` computes the horizontal search result. |
| Layout.HiddenDateStaysZero | src/ClockWidget.cpp:129-151 | A hidden date is never searched: its size and cap height stay 0 on both orientations. |
| Layout.ArrangeLabels | src/ClockWidget.cpp:200-269 | The clamp, the height, the label offsets and the centring compute `Arrange` of the searched sizes. |
| Layout.Arrange | src/ClockWidget.cpp:200-269 | The clamp and the geometry after the searches. Specified by `ClampedSizes`, `HeightFromSearch`, `LabelsCentred` and `CapBandsInside`; `ArrangeLabels` is its straight-line code. |
| Layout.ClampedSizes | src/ClockWidget.cpp:200-202 | The time font is at least 8 px. The date label exists exactly when the date is shown, and its font is then at least 8 px. Sizes already at 8 px or more are kept. |
| Layout.HeightFromSearch | src/ClockWidget.cpp:214-217 | The widget height is `timeCap + 2`, plus `4 + dateCap + 2` with a date. It uses the searched cap heights, not the clamped sizes. |
| Layout.LabelsCentred | src/ClockWidget.cpp:235-269 | The widget width is that of the wider label. Each label lies inside it, centred to within a pixel. |
| Layout.CapBandsInside | src/ClockWidget.cpp:229-257 | When ascents are at least the cap heights, the time's caps start within 2 px of the top. The date's caps start at least 4 px below the time's and end inside the widget's height. |
| Placement.AnchorsFor | src/ClockWidget.cpp:72-90 | The anchors of each location. Specified by `AnchorsFollowEdge`. |
| Placement.AnchorsFollowEdge | src/ClockWidget.cpp:72-90 | The anchors are the panel's own edge plus the start of its long side: left for a horizontal panel, top for a vertical one. There are always two. |
| Placement.MaxPos | src/ClockWidget.cpp:299-319 | The upper end of the range. Specified by `DrawnInsidePanel`. |
| Placement.DrawnInsidePanel | src/ClockWidget.cpp:299-319 | Every position `randomPosition` can draw from the bounds is at least the 20 px padding. When the range is not empty, the widget then stays 20 px from the far end of the panel. |
| Placement.CentreOffset | src/ClockWidget.cpp:329-331 | The centring offset is never negative. It halves the slack within a pixel when the widget fits, and is 0 when the widget is wider than the panel. |
| Placement.MarginsOnAnchoredSides | src/ClockWidget.cpp:326-355 | The margins are left→(off,pos,0,0), right→(0,pos,off,0), top→(pos,off,0,0) and otherwise (pos,0,0,off). Only anchored sides get a margin. |
| Placement.MarginsFor | src/ClockWidget.cpp:326-355 | The margins of each location. Specified by `MarginsOnAnchoredSides` and `MarginsNonNegative`. |
| Placement.MarginsNonNegative | src/ClockWidget.cpp:321-357 | With a non-negative position every margin is non-negative. |
| ClockWidgetModel.ClockWidget.constructor | src/ClockWidget.cpp:23-58 | Both files are read once, and the widget ends laid out, bounded and anchored for the screen. |
| ClockWidgetModel.ClockWidget.Rebuild | src/ClockWidget.cpp:489-498 | Setup, bounds and layer-shell configuration leave the widget laid out, bounded and anchored, and leave both settings as they were. |
| ClockWidgetModel.ClockWidget.IsVerticalPanel | src/ClockWidget.cpp:294-297 | True exactly when the panel's edge is left or right. |
| ClockWidgetModel.ClockWidget.SearchFontSizes | src/ClockWidget.cpp:131-198 | The searches give the sizes the settings determine. The date is searched only when shown. |
| ClockWidgetModel.ClockWidget.SetupAppearance | src/ClockWidget.cpp:106-276 | The labels and the widget size become those the current settings determine. |
| ClockWidgetModel.ClockWidget.CalculateBounds | src/ClockWidget.cpp:299-319 | The panel rectangle is the panel's strip on the screen. `minPos` is 20, and `maxPos` is the long side less the widget's extent along it and 20. An empty range is not corrected. |
| ClockWidgetModel.ClockWidget.RandomPosition | src/ClockWidget.cpp:362-369 | Returns `minPos` when `maxPos <= minPos`, and otherwise some value in `[minPos, maxPos]`. |
| ClockWidgetModel.ClockWidget.RepositionClock | src/ClockWidget.cpp:321-360 | The margins become those of the location for some drawable position. |
| ClockWidgetModel.ClockWidget.ConfigureLayerShell | src/ClockWidget.cpp:60-95 | The anchors become those of the location, and the margins those of a drawable position. |
| ClockWidgetModel.ClockWidget.ApplyPanelConfig | src/ClockWidget.cpp:471-499 | A new panel configuration with a different thickness or location is adopted whole, and the widget is rebuilt. Otherwise nothing changes. The clock settings never change. |
| ClockWidgetModel.ClockWidget.ReloadConfig | src/ClockWidget.cpp:465-500 | Afterwards thickness and location are the files'. If they differed, the new panel settings are adopted whole and the widget is rebuilt; otherwise nothing changes. The clock settings are never reloaded. |
| ClockWidgetModel.ClockWidget.OnConfigFilesChanged | src/ClockWidget.cpp:452-463 | One reload per signal on the same files has the effect of a single reload. No signals change nothing. |

## Left out

- Exact IEEE double arithmetic. `ratio *= 0.9`, the literals 0.56, 0.71 and 0.8, and `static_cast<int>` are computed on exact reals. A product that lands within rounding error of an integer may truncate differently in the program.
- C++ `int` overflow in the arithmetic of the layout and of `getPanelRect`. Dafny integers are unbounded. Settings values are limited to the `int` range, as `toInt` limits them.
- Font metrics, `QLabel::adjustSize` widths and the font family are inputs (`Layout.Metrics`), not computed.
- `std::mt19937` and `uniform_int_distribution` are replaced by a nondeterministic choice of any position in range. Uniformity is not modelled.
- File opening and reading are replaced by file contents passed as `Option<string>`. `QStandardPaths` lookup is not modelled.
- `QGuiApplication::primaryScreen()` is replaced by a screen-geometry parameter.
- `LayerShellQt::Window::get` is assumed to return a window. The layer, exclusive zone and keyboard settings are not modelled; only the anchors and margins chosen are.
- Label creation, fonts, stylesheets, `show()`, window flags and `setupWindow` are not modelled.
- `updateTime`, `formatTime` and `formatDate` are not modelled. The labels' text does not affect the layout, which measures fixed samples and "00:00" / "00.00.0000".
- Timers, the `QFileSystemWatcher` path re-adding and the 500 ms delay are not modelled. Each signal is one reload, in arrival order, on unchanged file contents.
- The tray icon, context menu, `QSettings`, `loadSettings` and screen-added recreation are not part of this model.
- Regular expressions are modelled only in the shapes the reader uses. Keys passed to `readValue` are plain words, so no regex metacharacters are interpreted.
