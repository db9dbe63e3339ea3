/** `ClockWidget` (src/ClockWidget.cpp, src/ClockWidget.h): the state the
    widget keeps between events and the operations that update it. The
    labels, the widget's size, the placement range and the layer-shell
    anchors and margins are fields; the font metrics, the contents of the two
    settings files and the primary screen's geometry come in as values. */
module ClockWidgetModel {
  import opened Wrappers
  import opened Cpp
  import opened KdeConfig
  import opened Layout
  import opened Placement

  class ClockWidget {
    /** The configured font family's metrics. */
    const metrics: Metrics

    var kdeConfig: ClockConfig     // m_kdeConfig
    var panelConfig: PanelConfig   // m_panelConfig

    var timeLabel: Label           // m_timeLabel
    var dateLabel: Option<Label>   // m_dateLabel, present only when the date is shown
    var width: int
    var height: int

    var panelRect: Rect            // m_panelRect
    var minPos: int                // m_minPos
    var maxPos: int                // m_maxPos

    /** What the widget last asked of its layer-shell window. */
    var anchors: set<Anchor>
    var margins: Margins

    /** The labels and the size are those the settings determine. */
    ghost predicate LaidOut()
      reads this`panelConfig, this`kdeConfig, this`timeLabel, this`dateLabel, this`width, this`height
    {
      var a := AppearanceOf(metrics, panelConfig, kdeConfig);
      timeLabel == a.time && dateLabel == a.date && width == a.width && height == a.height
    }

    /** The placement range belongs to the panel on `screen` and to the
        widget's current size. */
    ghost predicate Bounded(screen: Rect)
      reads this`panelConfig, this`panelRect, this`minPos, this`maxPos, this`width, this`height
    {
      && panelRect == panelConfig.PanelRect(screen)
      && minPos == MinPos
      && maxPos == MaxPos(panelRect, IsVertical(panelConfig.location), width, height)
    }

    /** The anchors belong to the panel's location, and the margins to a
        position `randomPosition` may draw. */
    ghost predicate Anchored()
      reads this`panelConfig, this`anchors, this`minPos, this`maxPos, this`margins, this`width, this`height
    {
      && anchors == AnchorsFor(panelConfig.location)
      && exists pos :: Drawable(minPos, maxPos, pos)
                       && margins == MarginsFor(panelConfig.location, panelConfig.thickness, width, height, pos)
    }

    ghost predicate Valid(screen: Rect)
      reads this
    {
      LaidOut() && Bounded(screen) && Anchored()
    }

    /** The constructor: both settings files are read once, then the widget
        is laid out, bounded and anchored. */
    constructor(metrics: Metrics, appletsrc: Option<string>, shellrc: Option<string>, screen: Rect)
      ensures kdeConfig == LoadClock(appletsrc)
      ensures panelConfig == PanelSpec(appletsrc, shellrc)
      ensures Valid(screen)
    {
      this.metrics := metrics;
      kdeConfig := LoadClock(appletsrc);
      var panel := LoadPanel(appletsrc, shellrc);
      panelConfig := panel;
      timeLabel, dateLabel, width, height := Label(0, 0, 0, 0), None, 0, 0;
      panelRect, minPos, maxPos := Rect(0, 0, 0, 0), 0, 0;
      anchors, margins := {}, Margins(0, 0, 0, 0);
      new;
      Rebuild(screen);
    }

    /** The rebuild both the constructor and `reloadConfig` run:
        `setupAppearance`, `calculateBounds`, `configureLayerShell`. The
        settings themselves are not touched. */
    method Rebuild(screen: Rect)
      modifies this
      ensures kdeConfig == old(kdeConfig) && panelConfig == old(panelConfig)
      ensures Valid(screen)
    {
      SetupAppearance();
      CalculateBounds(screen);
      assert LaidOut();
      ConfigureLayerShell();
      assert LaidOut() && Bounded(screen);
    }

    /** `isVerticalPanel`. */
    function IsVerticalPanel(): (r: bool)
      reads this
      ensures r <==> EdgeOf(panelConfig.location) in {Left, Right}
    {
      IsVertical(panelConfig.location)
    }

    /** The font-size searches of `setupAppearance`: one per label on a
        vertical panel (the date's only when it is shown), one coupled search
        on a horizontal panel. */
    method SearchFontSizes() returns (sizes: Sizes)
      ensures sizes == SearchedSizes(metrics, panelConfig, kdeConfig)
    {
      var thickness := panelConfig.thickness as int;
      if IsVerticalPanel() {
        var time := SearchVertical(metrics, thickness, TimeSample(kdeConfig));
        var date := Fit(0, 0);
        if kdeConfig.showDate {
          date := SearchVertical(metrics, thickness, DateSample(kdeConfig));
        }
        sizes := Sizes(time.size, date.size, time.cap, date.cap);
      } else {
        sizes := SearchHorizontal(metrics, thickness, kdeConfig.showDate);
      }
    }

    /** `setupAppearance`: the font searches, the clamp, and the labels'
        geometry. */
    method SetupAppearance()
      modifies this`timeLabel, this`dateLabel, this`width, this`height
      ensures LaidOut()
    {
      var sizes := SearchFontSizes();
      var a := ArrangeLabels(metrics, sizes, kdeConfig.showDate);
      timeLabel, dateLabel, width, height := a.time, a.date, a.width, a.height;
    }

    /** `calculateBounds`: the panel's rectangle on the screen and the range
        along its long side. An empty range is left as it is. */
    method CalculateBounds(screen: Rect)
      modifies this`panelRect, this`minPos, this`maxPos
      ensures Bounded(screen)
    {
      panelRect := panelConfig.PanelRect(screen);
      if IsVerticalPanel() {
        minPos := Padding;
        maxPos := panelRect.height - height - Padding;
      } else {
        minPos := Padding;
        maxPos := panelRect.width - width - Padding;
      }
    }

    /** `randomPosition`: the generator is replaced by a choice of any value
        in range. */
    method RandomPosition() returns (pos: int)
      ensures Drawable(minPos, maxPos, pos)
    {
      if maxPos <= minPos {
        return minPos;
      }
      pos :| minPos <= pos <= maxPos;
    }

    /** `repositionClock`: a new position along the panel, centred across it. */
    method RepositionClock()
      modifies this`margins
      ensures exists pos :: Drawable(minPos, maxPos, pos)
                            && margins == MarginsFor(panelConfig.location, panelConfig.thickness, width, height, pos)
    {
      var pos := RandomPosition();
      if IsVerticalPanel() {
        var hOffset := CentreOffset(panelConfig.thickness, width);
        if panelConfig.location == 5 {
          margins := Margins(hOffset, pos, 0, 0);
        } else {
          margins := Margins(0, pos, hOffset, 0);
        }
      } else {
        var vOffset := CentreOffset(panelConfig.thickness, height);
        if panelConfig.location == 3 {
          margins := Margins(pos, vOffset, 0, 0);
        } else {
          margins := Margins(pos, 0, 0, vOffset);
        }
      }
      assert Drawable(minPos, maxPos, pos)
             && margins == MarginsFor(panelConfig.location, panelConfig.thickness, width, height, pos);
    }

    /** `configureLayerShell`: anchors by location, then a reposition. */
    method ConfigureLayerShell()
      modifies this`anchors, this`margins
      ensures Anchored()
    {
      var location := panelConfig.location;
      if location == 3 {
        anchors := {AnchorTop, AnchorLeft};
      } else if location == 5 {
        anchors := {AnchorLeft, AnchorTop};
      } else if location == 6 {
        anchors := {AnchorRight, AnchorTop};
      } else {
        anchors := {AnchorBottom, AnchorLeft};
      }
      RepositionClock();
    }

    /** `reloadConfig`: the panel settings are read again and handed to the
        comparison. The clock settings are never read again. */
    method ReloadConfig(appletsrc: Option<string>, shellrc: Option<string>, screen: Rect)
      modifies this
      ensures kdeConfig == old(kdeConfig)
      ensures panelConfig.thickness == PanelSpec(appletsrc, shellrc).thickness
      ensures panelConfig.location == PanelSpec(appletsrc, shellrc).location
      ensures old(panelConfig.thickness) != PanelSpec(appletsrc, shellrc).thickness
              || old(panelConfig.location) != PanelSpec(appletsrc, shellrc).location
              ==> panelConfig == PanelSpec(appletsrc, shellrc) && Valid(screen)
      ensures old(panelConfig.thickness) == PanelSpec(appletsrc, shellrc).thickness
              && old(panelConfig.location) == PanelSpec(appletsrc, shellrc).location
              ==> unchanged(this)
    {
      var newPanelConfig := LoadPanel(appletsrc, shellrc);
      ApplyPanelConfig(newPanelConfig, screen);
    }

    /** The comparison in `reloadConfig`: a freshly read panel configuration
        replaces the current one, and the widget is rebuilt, only when its
        thickness or location differs. */
    method ApplyPanelConfig(newPanelConfig: PanelConfig, screen: Rect)
      modifies this
      ensures kdeConfig == old(kdeConfig)
      ensures panelConfig.thickness == newPanelConfig.thickness
      ensures panelConfig.location == newPanelConfig.location
      ensures old(panelConfig.thickness) != newPanelConfig.thickness
              || old(panelConfig.location) != newPanelConfig.location
              ==> panelConfig == newPanelConfig && Valid(screen)
      ensures old(panelConfig.thickness) == newPanelConfig.thickness
              && old(panelConfig.location) == newPanelConfig.location
              ==> unchanged(this)
    {
      if newPanelConfig.thickness != panelConfig.thickness || newPanelConfig.location != panelConfig.location {
        panelConfig := newPanelConfig;
        Rebuild(screen);
      }
    }

    /** `onConfigFileChanged`, once per signal: every signal schedules its own
        reload and nothing merges them, so `signals` reloads run on the same
        file contents. Only the first can change anything. */
    method OnConfigFilesChanged(signals: nat, appletsrc: Option<string>, shellrc: Option<string>, screen: Rect)
      modifies this
      ensures kdeConfig == old(kdeConfig)
      ensures signals == 0 ==> unchanged(this)
      ensures signals > 0 ==> panelConfig.thickness == PanelSpec(appletsrc, shellrc).thickness
                              && panelConfig.location == PanelSpec(appletsrc, shellrc).location
      ensures signals > 0 && (old(panelConfig.thickness) != PanelSpec(appletsrc, shellrc).thickness
                              || old(panelConfig.location) != PanelSpec(appletsrc, shellrc).location)
              ==> panelConfig == PanelSpec(appletsrc, shellrc) && Valid(screen)
      ensures old(panelConfig.thickness) == PanelSpec(appletsrc, shellrc).thickness
              && old(panelConfig.location) == PanelSpec(appletsrc, shellrc).location
              ==> unchanged(this)
    {
      ghost var target := PanelSpec(appletsrc, shellrc);
      ghost var changed := old(panelConfig.thickness) != target.thickness || old(panelConfig.location) != target.location;
      var delivered := 0;
      while delivered < signals
        invariant 0 <= delivered <= signals
        invariant kdeConfig == old(kdeConfig)
        invariant delivered > 0 ==> panelConfig.thickness == target.thickness && panelConfig.location == target.location
        invariant delivered > 0 && changed ==> panelConfig == target && Valid(screen)
        invariant delivered == 0 || !changed ==> unchanged(this)
      {
        ReloadConfig(appletsrc, shellrc, screen);
        delivered := delivered + 1;
      }
    }
  }
}
