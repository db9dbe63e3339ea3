/** `ClockWidget::setupAppearance` (src/ClockWidget.cpp): the bounded search
    for the time and date font sizes, the clamp to 8 px, and the geometry of
    the two labels inside the widget.

    Font metrics are not computed here: `Metrics` carries them as functions
    of the pixel size (and the text), and the width a label takes after
    `adjustSize` is one more such function. The ratio schedule is computed
    on exact reals. */
module Layout {
  import opened Wrappers
  import opened Cpp
  import opened KdeConfig

  /** `QFontMetrics` of the configured family, and the width of a `QLabel`
      after `adjustSize`, as functions of the pixel size. */
  datatype Metrics = Metrics(
    advance: (int, string) -> int,     // horizontalAdvance(text)
    capHeight: int -> int,
    ascent: int -> int,
    labelWidth: (int, string) -> int)

  /** Number of attempts of each search loop. */
  const Attempts := 20

  /** Minimum pixel size after the search. */
  const MinFontSize := 8

  /** The texts the labels are created with before `adjustSize`. */
  const TimeLabelText := "00:00"
  const DateLabelText := "00.00.0000"

  /** Location codes 5 (left) and 6 (right) are vertical panels. */
  predicate IsVertical(location: int)
  {
    location == 5 || location == 6
  }

  lemma VerticalIsSideEdge(location: int)
    ensures IsVertical(location) <==> EdgeOf(location) in {Left, Right}
  {
  }

  // ---------------------------------------------------------------------------
  // Sample strings

  /** The text whose width the vertical search measures for the time. */
  function TimeSample(c: ClockConfig): string
  {
    if c.use24hFormat == 0 then (if c.showSeconds == 2 then "00:00:00 AM" else "00:00 AM")
    else if c.showSeconds == 2 then "00:00:00" else "00:00"
  }

  /** The text whose width the vertical search measures for the date. */
  function DateSample(c: ClockConfig): string
  {
    if c.dateFormat == "longDate" then "Wednesday, December 30"
    else if c.dateFormat == "isoDate" then "0000-00-00"
    else "00.00.0000"
  }

  /** The time sample has seconds exactly when they are always shown, and an
      AM marker exactly in 12-hour mode. */
  lemma TimeSampleParts(c: ClockConfig)
    ensures TimeSample(c) == (if c.showSeconds == 2 then "00:00:00" else "00:00")
                             + (if c.use24hFormat == 0 then " AM" else "")
  {
  }

  /** Only "longDate" and "isoDate" have their own samples; every other
      format, including "custom", is measured with the short-date sample. */
  lemma DateSampleOtherFormats(c: ClockConfig)
    requires c.dateFormat != "longDate" && c.dateFormat != "isoDate"
    ensures DateSample(c) == DateLabelText
  {
  }

  // ---------------------------------------------------------------------------
  // The ratio schedule

  /** The ratio after `k` multiplications by 0.9. */
  function Shrunk(start: real, k: nat): real
  {
    if k == 0 then start else Shrunk(start, k - 1) * 0.9
  }

  lemma {:induction false} ShrunkBounds(start: real, k: nat)
    requires start > 0.0
    ensures 0.0 < Shrunk(start, k) <= start
    ensures Shrunk(start, k + 1) <= Shrunk(start, k)
  {
    if k > 0 {
      ShrunkBounds(start, k - 1);
    }
  }

  /** `static_cast<int>(size * ratio)`. */
  function Scaled(size: int, ratio: real): int
  {
    TruncScaled(size as real, ratio)
  }

  /** Attempt `k` of the vertical search: `static_cast<int>(thickness * 0.9^k)`. */
  function VerticalSize(thickness: int, k: nat): int
  {
    Scaled(thickness, Shrunk(1.0, k))
  }

  /** Scaling a non-negative size is monotone in the ratio. */
  lemma ScaledMonotone(size: int, r1: real, r2: real)
    requires 0 <= size && r1 <= r2
    ensures Scaled(size, r1) <= Scaled(size, r2)
  {
    TruncScaleMonotone(size as real, r1, r2);
  }

  /** The vertical search starts at the thickness and never grows. */
  lemma VerticalSizeShrinks(thickness: int, k: nat)
    requires thickness >= 0
    ensures VerticalSize(thickness, 0) == thickness
    ensures 0 <= VerticalSize(thickness, k + 1) <= VerticalSize(thickness, k) <= thickness
  {
    ShrunkBounds(1.0, k);
    ShrunkBounds(1.0, k + 1);
    assert Scaled(thickness, 1.0) == thickness;
    assert Scaled(thickness, 0.0) == 0;
    ScaledMonotone(thickness, 0.0, Shrunk(1.0, k + 1));
    ScaledMonotone(thickness, Shrunk(1.0, k + 1), Shrunk(1.0, k));
    ScaledMonotone(thickness, Shrunk(1.0, k), 1.0);
  }

  // ---------------------------------------------------------------------------
  // Vertical panels: each label fills the panel's width independently

  /** A font size and the cap height recorded for it (0 when none was). */
  datatype Fit = Fit(size: int, cap: int)

  predicate WidthFits(m: Metrics, thickness: int, sample: string, k: nat)
  {
    m.advance(VerticalSize(thickness, k), sample) <= thickness - 4
  }

  /** The search from attempt `k` on, one attempt at a time: a fitting size
      records its cap height and stops; the last attempt's size is kept with
      a cap height of 0 when it does not fit either. */
  function VerticalFrom(m: Metrics, thickness: int, sample: string, k: nat): Fit
    requires k < Attempts
    decreases Attempts - k
  {
    var size := VerticalSize(thickness, k);
    if m.advance(size, sample) <= thickness - 4 then Fit(size, m.capHeight(size))
    else if k == Attempts - 1 then Fit(size, 0)
    else VerticalFrom(m, thickness, sample, k + 1)
  }

  lemma {:induction false} VerticalFromFirst(m: Metrics, thickness: int, sample: string, j: nat, k: nat)
    requires j <= k < Attempts && WidthFits(m, thickness, sample, k)
    requires forall i :: j <= i < k ==> !WidthFits(m, thickness, sample, i)
    decreases k - j
    ensures VerticalFrom(m, thickness, sample, j)
         == Fit(VerticalSize(thickness, k), m.capHeight(VerticalSize(thickness, k)))
  {
    if j < k {
      assert !WidthFits(m, thickness, sample, j);
      VerticalFromFirst(m, thickness, sample, j + 1, k);
    }
  }

  lemma {:induction false} VerticalFromNone(m: Metrics, thickness: int, sample: string, j: nat)
    requires j < Attempts
    requires forall i :: j <= i < Attempts ==> !WidthFits(m, thickness, sample, i)
    decreases Attempts - j
    ensures VerticalFrom(m, thickness, sample, j) == Fit(VerticalSize(thickness, Attempts - 1), 0)
  {
    assert !WidthFits(m, thickness, sample, j);
    if j < Attempts - 1 {
      VerticalFromNone(m, thickness, sample, j + 1);
    }
  }

  /** The first attempt whose sample fits `thickness - 4` decides the size,
      and its cap height is recorded. */
  lemma VerticalFirstFit(m: Metrics, thickness: int, sample: string, k: nat)
    requires k < Attempts && WidthFits(m, thickness, sample, k)
    requires forall i :: 0 <= i < k ==> !WidthFits(m, thickness, sample, i)
    ensures VerticalFrom(m, thickness, sample, 0)
         == Fit(VerticalSize(thickness, k), m.capHeight(VerticalSize(thickness, k)))
  {
    VerticalFromFirst(m, thickness, sample, 0, k);
  }

  /** When no attempt fits, the size of the 20th attempt is kept and the cap
      height stays 0. */
  lemma VerticalNoFit(m: Metrics, thickness: int, sample: string)
    requires forall i :: 0 <= i < Attempts ==> !WidthFits(m, thickness, sample, i)
    ensures VerticalFrom(m, thickness, sample, 0) == Fit(VerticalSize(thickness, Attempts - 1), 0)
  {
    VerticalFromNone(m, thickness, sample, 0);
  }

  /** One of the vertical search loops of `setupAppearance`. */
  method SearchVertical(m: Metrics, thickness: int, sample: string) returns (fit: Fit)
    ensures fit == VerticalFrom(m, thickness, sample, 0)
  {
    var availableWidth := thickness - 4;
    var ratio := 1.0;
    var size := 0;
    var attempt := 0;
    while attempt < Attempts
      invariant 0 <= attempt <= Attempts
      invariant ratio == Shrunk(1.0, attempt)
      invariant attempt > 0 ==> size == VerticalSize(thickness, attempt - 1)
      invariant forall i :: 0 <= i < attempt ==> !WidthFits(m, thickness, sample, i)
    {
      size := Scaled(thickness, ratio);
      assert size == VerticalSize(thickness, attempt);
      if m.advance(size, sample) <= availableWidth {
        VerticalFirstFit(m, thickness, sample, attempt);
        return Fit(size, m.capHeight(size));
      }
      ratio := ratio * 0.9;
      attempt := attempt + 1;
    }
    VerticalNoFit(m, thickness, sample);
    fit := Fit(size, 0);
  }

  // ---------------------------------------------------------------------------
  // Horizontal panels: time and date stacked within the panel's height

  /** Font sizes and the cap heights the layout uses. */
  datatype Sizes = Sizes(timeSize: int, dateSize: int, timeCap: int, dateCap: int)

  /** Height of the stacked labels: time caps and a 2 px buffer, then a 4 px
      gap, the date caps and another 2 px buffer when the date is shown. */
  function StackHeight(s: Sizes, showDate: bool): int
  {
    s.timeCap + 2 + (if showDate then 4 + s.dateCap + 2 else 0)
  }

  /** Attempt `k`: with a date the time size is `thickness * 0.56 * 0.9^k`
      and the date size 0.8 of it; without a date the time size is
      `thickness * 0.71` on every attempt, and the date's size and cap
      height stay 0. */
  function HorizontalAttempt(m: Metrics, thickness: int, showDate: bool, k: nat): Sizes
  {
    if showDate then
      var timeSize := HorizontalTimeSize(thickness, k);
      var dateSize := DateSizeFor(timeSize);
      Sizes(timeSize, dateSize, m.capHeight(timeSize), m.capHeight(dateSize))
    else
      var timeSize := Scaled(thickness, 0.71);
      Sizes(timeSize, 0, m.capHeight(timeSize), 0)
  }

  function HorizontalTimeSize(thickness: int, k: nat): int
  {
    Scaled(thickness, Shrunk(0.56, k))
  }

  function DateSizeFor(timeSize: int): int
  {
    Scaled(timeSize, 0.8)
  }

  predicate HeightFits(m: Metrics, thickness: int, showDate: bool, k: nat)
  {
    StackHeight(HorizontalAttempt(m, thickness, showDate, k), showDate) <= thickness
  }

  /** The search from attempt `k` on: the first attempt whose stack fits the
      thickness is kept, and otherwise the last attempt. */
  function HorizontalFrom(m: Metrics, thickness: int, showDate: bool, k: nat): Sizes
    requires k < Attempts
    decreases Attempts - k
  {
    var a := HorizontalAttempt(m, thickness, showDate, k);
    if StackHeight(a, showDate) <= thickness || k == Attempts - 1 then a
    else HorizontalFrom(m, thickness, showDate, k + 1)
  }

  lemma {:induction false} HorizontalFromFirst(m: Metrics, thickness: int, showDate: bool, j: nat, k: nat)
    requires j <= k < Attempts && HeightFits(m, thickness, showDate, k)
    requires forall i :: j <= i < k ==> !HeightFits(m, thickness, showDate, i)
    decreases k - j
    ensures HorizontalFrom(m, thickness, showDate, j) == HorizontalAttempt(m, thickness, showDate, k)
  {
    if j < k {
      assert !HeightFits(m, thickness, showDate, j);
      HorizontalFromFirst(m, thickness, showDate, j + 1, k);
    }
  }

  lemma {:induction false} HorizontalFromNone(m: Metrics, thickness: int, showDate: bool, j: nat)
    requires j < Attempts
    requires forall i :: j <= i < Attempts ==> !HeightFits(m, thickness, showDate, i)
    decreases Attempts - j
    ensures HorizontalFrom(m, thickness, showDate, j) == HorizontalAttempt(m, thickness, showDate, Attempts - 1)
  {
    assert !HeightFits(m, thickness, showDate, j);
    if j < Attempts - 1 {
      HorizontalFromNone(m, thickness, showDate, j + 1);
    }
  }

  /** The search stops at the first attempt whose stacked height fits. */
  lemma HorizontalFirstFit(m: Metrics, thickness: int, showDate: bool, k: nat)
    requires k < Attempts && HeightFits(m, thickness, showDate, k)
    requires forall i :: 0 <= i < k ==> !HeightFits(m, thickness, showDate, i)
    ensures HorizontalFrom(m, thickness, showDate, 0) == HorizontalAttempt(m, thickness, showDate, k)
  {
    HorizontalFromFirst(m, thickness, showDate, 0, k);
  }

  /** When nothing fits, the 20th attempt's sizes and cap heights are kept. */
  lemma HorizontalNoFit(m: Metrics, thickness: int, showDate: bool)
    requires forall i :: 0 <= i < Attempts ==> !HeightFits(m, thickness, showDate, i)
    ensures HorizontalFrom(m, thickness, showDate, 0) == HorizontalAttempt(m, thickness, showDate, Attempts - 1)
  {
    HorizontalFromNone(m, thickness, showDate, 0);
  }

  lemma {:induction false} HorizontalFromIsAttempt(m: Metrics, thickness: int, showDate: bool, j: nat)
    requires j < Attempts
    decreases Attempts - j
    ensures exists k :: j <= k < Attempts && HorizontalFrom(m, thickness, showDate, j) == HorizontalAttempt(m, thickness, showDate, k)
  {
    var a := HorizontalAttempt(m, thickness, showDate, j);
    if !(StackHeight(a, showDate) <= thickness || j == Attempts - 1) {
      HorizontalFromIsAttempt(m, thickness, showDate, j + 1);
    }
  }

  /** Without a date the time size never shrinks: every attempt uses
      `thickness * 0.71`, and the date's size and cap height stay 0. */
  lemma NoDateNeverShrinks(m: Metrics, thickness: int)
    ensures var timeSize := Scaled(thickness, 0.71);
      HorizontalFrom(m, thickness, false, 0) == Sizes(timeSize, 0, m.capHeight(timeSize), 0)
  {
    HorizontalFromIsAttempt(m, thickness, false, 0);
  }

  /** With a date, the date size is 0.8 of the chosen time size, both from
      the same attempt, and each cap height belongs to its size. */
  lemma DateFollowsTime(m: Metrics, thickness: int)
    ensures var s := HorizontalFrom(m, thickness, true, 0);
      s.dateSize == DateSizeFor(s.timeSize)
      && s.timeCap == m.capHeight(s.timeSize) && s.dateCap == m.capHeight(s.dateSize)
  {
    HorizontalFromIsAttempt(m, thickness, true, 0);
  }

  /** The horizontal search loop of `setupAppearance`. */
  method SearchHorizontal(m: Metrics, thickness: int, showDate: bool) returns (sizes: Sizes)
    ensures sizes == HorizontalFrom(m, thickness, showDate, 0)
  {
    var timeRatio := 0.56;
    var dateRatio := 0.8;
    var timeSize, dateSize, timeCap, dateCap := 0, 0, 0, 0;
    var attempt := 0;
    while attempt < Attempts
      invariant 0 <= attempt <= Attempts
      invariant timeRatio == Shrunk(0.56, attempt)
      invariant !showDate ==> dateSize == 0 && dateCap == 0
      invariant attempt > 0 ==> Sizes(timeSize, dateSize, timeCap, dateCap) == HorizontalAttempt(m, thickness, showDate, attempt - 1)
      invariant forall i :: 0 <= i < attempt ==> !HeightFits(m, thickness, showDate, i)
    {
      if showDate {
        timeSize := Scaled(thickness, timeRatio);
        dateSize := Scaled(timeSize, dateRatio);
        assert timeSize == HorizontalTimeSize(thickness, attempt);
        assert dateSize == DateSizeFor(timeSize);
      } else {
        timeSize := Scaled(thickness, 0.71);
      }
      timeCap := m.capHeight(timeSize);
      var totalHeight := timeCap + 2;
      if showDate {
        dateCap := m.capHeight(dateSize);
        totalHeight := totalHeight + 4 + dateCap + 2;
      }
      assert Sizes(timeSize, dateSize, timeCap, dateCap) == HorizontalAttempt(m, thickness, showDate, attempt);
      if totalHeight <= thickness {
        HorizontalFirstFit(m, thickness, showDate, attempt);
        return Sizes(timeSize, dateSize, timeCap, dateCap);
      }
      timeRatio := timeRatio * 0.9;
      attempt := attempt + 1;
    }
    HorizontalNoFit(m, thickness, showDate);
    sizes := Sizes(timeSize, dateSize, timeCap, dateCap);
  }

  // ---------------------------------------------------------------------------
  // Both orientations

  /** What the searches produce for the panel and the clock settings; the
      date is searched only when it is shown. */
  function SearchedSizes(m: Metrics, panel: PanelConfig, clock: ClockConfig): Sizes
  {
    var t := panel.thickness as int;
    if IsVertical(panel.location) then
      var time := VerticalFrom(m, t, TimeSample(clock), 0);
      var date := if clock.showDate then VerticalFrom(m, t, DateSample(clock), 0) else Fit(0, 0);
      Sizes(time.size, date.size, time.cap, date.cap)
    else HorizontalFrom(m, t, clock.showDate, 0)
  }

  /** A hidden date is never searched: its size and cap height stay 0. */
  lemma HiddenDateStaysZero(m: Metrics, panel: PanelConfig, clock: ClockConfig)
    requires !clock.showDate
    ensures SearchedSizes(m, panel, clock).dateSize == 0
    ensures SearchedSizes(m, panel, clock).dateCap == 0
  {
    if !IsVertical(panel.location) {
      NoDateNeverShrinks(m, panel.thickness as int);
    }
  }

  /** A text label: its font's pixel size, its position and its width. */
  datatype Label = Label(fontSize: int, x: int, y: int, width: int)

  /** The widget's labels and size. */
  datatype Appearance = Appearance(time: Label, date: Option<Label>, width: int, height: int)

  function Max(a: int, b: int): int
  {
    if a >= b then a else b
  }

  /** How far a label is moved up so that its cap height starts near the
      widget's top: the space above the caps, less a 2 px buffer, never
      negative. */
  function TopPadding(ascent: int, cap: int): int
  {
    Max(0, ascent - cap - 2)
  }

  /** Everything `setupAppearance` computes: the searched sizes clamped to at
      least 8 px (the date's only when it is shown), the widget height from
      the searched cap heights, the width of the wider label, and both labels
      centred horizontally. */
  function AppearanceOf(m: Metrics, panel: PanelConfig, clock: ClockConfig): Appearance
  {
    Arrange(m, SearchedSizes(m, panel, clock), clock.showDate)
  }

  function Arrange(m: Metrics, s: Sizes, showDate: bool): Appearance
  {
    var timeSize := if s.timeSize < MinFontSize then MinFontSize else s.timeSize;
    var dateSize := if s.dateSize < MinFontSize && showDate then MinFontSize else s.dateSize;
    var timeWidth := m.labelWidth(timeSize, TimeLabelText);
    var timeY := -TopPadding(m.ascent(timeSize), s.timeCap);
    var height := StackHeight(s, showDate);
    if showDate then
      var dateWidth := m.labelWidth(dateSize, DateLabelText);
      var dateY := s.timeCap + 4 - TopPadding(m.ascent(dateSize), s.dateCap) + 2;
      var width := Max(timeWidth, dateWidth);
      Appearance(Label(timeSize, Half(width - timeWidth), timeY, timeWidth),
                 Some(Label(dateSize, Half(width - dateWidth), dateY, dateWidth)),
                 width, height)
    else
      Appearance(Label(timeSize, Half(timeWidth - timeWidth), timeY, timeWidth), None, timeWidth, height)
  }

  method ArrangeLabels(m: Metrics, sizes: Sizes, showDate: bool) returns (a: Appearance)
    ensures a == Arrange(m, sizes, showDate)
  {
    var timeFontSize := sizes.timeSize;
    var dateFontSize := sizes.dateSize;
    if timeFontSize < MinFontSize {
      timeFontSize := MinFontSize;
    }
    if dateFontSize < MinFontSize && showDate {
      dateFontSize := MinFontSize;
    }

    var totalHeight := sizes.timeCap + 2;
    if showDate {
      totalHeight := totalHeight + 4 + sizes.dateCap + 2;
    }

    var timeWidth := m.labelWidth(timeFontSize, TimeLabelText);
    var timeTopPadding := m.ascent(timeFontSize) - sizes.timeCap - 2;
    if timeTopPadding < 0 {
      timeTopPadding := 0;
    }
    var widgetWidth := timeWidth;

    var dateWidth, dateY := 0, 0;
    if showDate {
      dateWidth := m.labelWidth(dateFontSize, DateLabelText);
      var dateTopPadding := m.ascent(dateFontSize) - sizes.dateCap - 2;
      if dateTopPadding < 0 {
        dateTopPadding := 0;
      }
      dateY := sizes.timeCap + 4 - dateTopPadding + 2;
      widgetWidth := Max(widgetWidth, dateWidth);
    }

    var timeLabel := Label(timeFontSize, Half(widgetWidth - timeWidth), -timeTopPadding, timeWidth);
    var dateLabel := if showDate then Some(Label(dateFontSize, Half(widgetWidth - dateWidth), dateY, dateWidth)) else None;
    a := Appearance(timeLabel, dateLabel, widgetWidth, totalHeight);
  }

  /** The time font is at least 8 px; the date label exists exactly when the
      date is shown and its font is then at least 8 px; sizes the search
      already put at 8 px or more are kept. */
  lemma ClampedSizes(m: Metrics, panel: PanelConfig, clock: ClockConfig)
    ensures var a := AppearanceOf(m, panel, clock);
      var s := SearchedSizes(m, panel, clock);
      && a.time.fontSize >= MinFontSize
      && a.time.fontSize == Max(MinFontSize, s.timeSize)
      && (a.date.Some? <==> clock.showDate)
      && (a.date.Some? ==> a.date.value.fontSize >= MinFontSize && a.date.value.fontSize == Max(MinFontSize, s.dateSize))
  {
  }

  /** The height comes from the searched cap heights, not from the clamped
      sizes. */
  lemma HeightFromSearch(m: Metrics, panel: PanelConfig, clock: ClockConfig)
    ensures var a := AppearanceOf(m, panel, clock);
      var s := SearchedSizes(m, panel, clock);
      a.height == s.timeCap + 2 + (if clock.showDate then 4 + s.dateCap + 2 else 0)
  {
  }

  /** Each label lies inside the widget's width, which is that of the wider
      label, and is centred to within a pixel (the extra pixel goes right). */
  lemma LabelsCentred(m: Metrics, panel: PanelConfig, clock: ClockConfig)
    ensures var a := AppearanceOf(m, panel, clock);
      && a.width == (if a.date.Some? then Max(a.time.width, a.date.value.width) else a.time.width)
      && Centred(a.time, a.width)
      && (a.date.Some? ==> Centred(a.date.value, a.width))
  {
  }

  predicate Centred(l: Label, width: int)
  {
    0 <= l.x && l.x + l.width <= width && 0 <= (width - l.width - l.x) - l.x <= 1
  }

  /** When a font's ascent is at least the cap height the layout uses, the
      time's caps start within 2 px of the widget's top edge and end within
      the time's share of the height; the date's caps start at
      least 4 px below that and end no lower than the widget's bottom
      edge. */
  lemma CapBandsInside(m: Metrics, panel: PanelConfig, clock: ClockConfig)
    requires var a := AppearanceOf(m, panel, clock); var s := SearchedSizes(m, panel, clock);
      m.ascent(a.time.fontSize) >= s.timeCap
      && (a.date.Some? ==> m.ascent(a.date.value.fontSize) >= s.dateCap)
    ensures var a := AppearanceOf(m, panel, clock); var s := SearchedSizes(m, panel, clock);
      var timeTop := a.time.y + m.ascent(a.time.fontSize) - s.timeCap;
      && 0 <= timeTop <= 2
      && timeTop + s.timeCap <= s.timeCap + 2
      && (a.date.None? ==> a.height == s.timeCap + 2)
      && (a.date.Some? ==>
            var dateTop := a.date.value.y + m.ascent(a.date.value.fontSize) - s.dateCap;
            && timeTop + s.timeCap + 4 <= dateTop
            && dateTop + s.dateCap <= a.height)
  {
  }
}
