/** The reader of the Plasma settings files (src/KDEClockConfig.cpp): it finds
    bracket-delimited sections with regular expressions, extracts `key=value`
    pairs from their text, and falls back to the struct defaults of
    src/KDEClockConfig.h whenever a file, a section or a key is missing or a
    value does not convert. File contents arrive as `Option<string>`: `None`
    is a file that could not be opened. */
module KdeConfig {
  import opened Wrappers
  import opened Text
  import opened SectionMatch

  /** A `QRect`: origin and size. */
  datatype Rect = Rect(x: int, y: int, width: int, height: int)

  /** The screen edge a panel is attached to. */
  datatype Edge = Top | Bottom | Left | Right

  /** Location codes of the panel: 3 = top, 4 = bottom, 5 = left, 6 = right;
      every other code is treated as bottom. */
  function EdgeOf(location: int): Edge
  {
    if location == 3 then Top
    else if location == 5 then Left
    else if location == 6 then Right
    else Bottom
  }

  /** `KDEPanelConfig`. */
  datatype PanelConfig = PanelConfig(location: Int32, thickness: Int32, floating: bool, screen: Int32)
  {
    /** `KDEPanelConfig::getPanelRect`: the strip of the screen the panel covers. */
    function PanelRect(screenGeom: Rect): Rect
    {
      var g := screenGeom;
      if location == 3 then Rect(g.x, g.y, g.width, thickness)
      else if location == 4 then Rect(g.x, g.y + g.height - thickness, g.width, thickness)
      else if location == 5 then Rect(g.x, g.y, thickness, g.height)
      else if location == 6 then Rect(g.x + g.width - thickness, g.y, thickness, g.height)
      else Rect(g.x, g.y + g.height - thickness, g.width, thickness)
    }
  }

  const DefaultPanel := PanelConfig(4, 44, false, 0)

  /** `KDEClockConfig`. */
  datatype ClockConfig = ClockConfig(
    showDate: bool,
    dateFormat: string,        // shortDate, longDate, isoDate, custom
    customDateFormat: string,
    showSeconds: Int32,        // 0 = never, 1 = tooltip only, 2 = always
    use24hFormat: Int32,       // 0 = 12h, 1 = region default, 2 = 24h
    dateDisplayFormat: Int32)  // 0 = adaptive, 1 = beside, 2 = below

  const DefaultClock := ClockConfig(true, "shortDate", "ddd d", 1, 1, 0)

  // ---------------------------------------------------------------------------
  // Panel geometry

  /** The panel's short side is its thickness and its long side is the
      screen's extent along the panel's edge. */
  lemma PanelRectSides(panel: PanelConfig, g: Rect)
    ensures var r := panel.PanelRect(g);
      if EdgeOf(panel.location) in {Left, Right}
      then r.width == panel.thickness && r.height == g.height
      else r.height == panel.thickness && r.width == g.width
  {
  }

  /** The panel strip lies flush against its edge, starts at the screen's
      origin along that edge, and stays inside the screen when it is no
      thicker than the screen. */
  lemma PanelRectOnEdge(panel: PanelConfig, g: Rect)
    ensures var r := panel.PanelRect(g);
      match EdgeOf(panel.location)
      case Top => r.y == g.y && r.x == g.x
      case Bottom => r.y + r.height == g.y + g.height && r.x == g.x
      case Left => r.x == g.x && r.y == g.y
      case Right => r.x + r.width == g.x + g.width && r.y == g.y
    ensures var r := panel.PanelRect(g);
      0 <= panel.thickness <= g.width && 0 <= panel.thickness <= g.height ==>
        g.x <= r.x && r.x + r.width <= g.x + g.width && g.y <= r.y && r.y + r.height <= g.y + g.height
  {
  }

  // ---------------------------------------------------------------------------
  // readValue / readInt / readBool

  /** The regular expression `key=(.+)` matches at `i`: the key, '=' and at
      least one character before the end of the line ('.' does not match a
      newline). */
  predicate KeyValueAt(s: string, key: string, i: nat)
  {
    StartsAt(s, i, key + "=") && i + |key| + 1 < |s| && s[i + |key| + 1] != '\n'
  }

  function KeyValues(s: string, key: string): nat -> bool
  {
    (i: nat) => KeyValueAt(s, key, i)
  }

  /** The captured value of a match at `i`, trimmed: `(.+)` runs greedily to
      the end of the line. */
  function ValueAt(s: string, key: string, i: nat): string
    requires i + |key| + 1 <= |s|
  {
    var v := i + |key| + 1;
    Trim(s[v..StopAt(s, v, '\n')])
  }

  /** The trimmed value of the leftmost match of `key=(.+)`, if any. */
  function FindValue(s: string, key: string): Option<string>
  {
    match FirstFrom(KeyValues(s, key), 0, |s|)
    case None => None
    case Some(i) =>
      assert KeyValues(s, key)(i);
      Some(ValueAt(s, key, i))
  }

  /** The value comes from the first line that has `key=` and a non-empty
      rest. */
  lemma FindValueIsFirst(s: string, key: string, i: nat)
    requires KeyValueAt(s, key, i)
    requires forall j :: 0 <= j < i ==> !KeyValueAt(s, key, j)
    ensures FindValue(s, key) == Some(ValueAt(s, key, i))
  {
    var p := KeyValues(s, key);
    assert p(i);
    var first := FirstFrom(p, 0, |s|);
    assert first.Some?;
    assert !(first.value < i) by {
      assert p(first.value);
    }
    assert !(i < first.value) by {
      assert p(i);
    }
  }

  /** There is no value exactly when no line has `key=` and a non-empty
      rest. */
  lemma FindValueNone(s: string, key: string)
    ensures (forall i :: 0 <= i ==> !KeyValueAt(s, key, i)) <==> FindValue(s, key).None?
  {
    var p := KeyValues(s, key);
    var first := FirstFrom(p, 0, |s|);
    if first.Some? {
      assert KeyValueAt(s, key, first.value) by {
        assert p(first.value);
      }
    } else {
      forall i | 0 <= i ensures !KeyValueAt(s, key, i) {
        if i <= |s| {
          assert !p(i);
        }
      }
    }
  }

  /** `readValue`. */
  function ReadValue(s: string, key: string, defaultVal: string): string
  {
    FindValue(s, key).GetOr(defaultVal)
  }

  /** `readInt`: the default is passed through `readValue` as text and
      converted back. */
  function ReadInt(s: string, key: string, defaultVal: Int32): Int32
  {
    ParseInt(ReadValue(s, key, NumberToString(defaultVal))).GetOr(defaultVal)
  }

  /** `readBool`. */
  function ReadBool(s: string, key: string, defaultVal: bool): bool
  {
    var v := ReadValue(s, key, if defaultVal then "true" else "false");
    v == "true" || v == "1"
  }

  /** A missing key yields the default; a present value yields its integer
      when it converts and the default otherwise. */
  lemma ReadIntTotal(s: string, key: string, defaultVal: Int32)
    ensures ReadInt(s, key, defaultVal) ==
      match FindValue(s, key)
      case None => defaultVal
      case Some(v) => ParseInt(v).GetOr(defaultVal)
  {
    if FindValue(s, key).None? {
      ParseIntRoundTrip(defaultVal);
    }
  }

  /** A missing key yields the default; a present value is true exactly when
      it is "true" or "1", whatever the default. */
  lemma ReadBoolTotal(s: string, key: string, defaultVal: bool)
    ensures ReadBool(s, key, defaultVal) ==
      match FindValue(s, key)
      case None => defaultVal
      case Some(v) => v == "true" || v == "1"
  {
    if FindValue(s, key).None? && !defaultVal {
      assert "false" != "true" && "false" != "1" by {
        assert "false"[0] != "true"[0];
      }
    }
  }

  // ---------------------------------------------------------------------------
  // The regular expressions of the two load() functions

  const PanelPlugin := "plugin=org.kde.panel"
  const ClockPlugin := "plugin=org.kde.plasma.digitalclock"
  const ContainmentsOpen := "[Containments]["

  /** `\[Containments\]\[(\d+)\][^\[]*plugin=org\.kde\.panel` */
  const PanelContainment := Pattern([Lit(ContainmentsOpen), Number, Lit("]")], RunContaining(PanelPlugin))

  /** `\[Containments\]\[<id>\]([^\[]*)` */
  function ContainmentSection(id: string): Pattern
  {
    Pattern([Lit(ContainmentsOpen + id + "]")], Run)
  }

  /** `\[Containments\]\[\d+\]\[Applets\]\[(\d+)\][^\[]*plugin=org\.kde\.plasma\.digitalclock` */
  const ClockApplet := Pattern([Lit(ContainmentsOpen), Number, Lit("][Applets]["), Number, Lit("]")], RunContaining(ClockPlugin))

  /** `\[Containments\]\[\d+\]\[Applets\]\[<id>\]\[Configuration\]\[Appearance\]([^\[]*)` */
  function AppearanceSection(id: string): Pattern
  {
    Pattern([Lit(ContainmentsOpen), Number, Lit("][Applets][" + id + "][Configuration][Appearance]")], Run)
  }

  /** `\[PlasmaViews\]\[Panel \d+\]\[Defaults\]([^\[]*)` */
  const PanelDefaults := Pattern([Lit("[PlasmaViews][Panel "), Number, Lit("][Defaults]")], Run)

  /** `\[PlasmaViews\]\[Panel \d+\]([^\[]*\[Defaults\])` */
  const PanelFloating := Pattern([Lit("[PlasmaViews][Panel "), Number, Lit("]")], RunThen("[Defaults]"))

  /** The captured text of the first match of `p`, if the file exists and `p` matches. */
  function SectionText(file: Option<string>, p: Pattern): Option<string>
  {
    match file
    case None => None
    case Some(content) =>
      match Find(content, 0, p)
      case None => None
      case Some(m) => Some(m.capture)
  }

  /** For a `([^\[]*)` expression, the section is the text from the end of
      the FIRST header match up to the next '[' (or the end of the file):
      keys of later sections are never part of it. */
  lemma SectionAfterFirstHeader(s: string, p: Pattern, i: nat)
    requires p.tail.Run? && i <= |s|
    requires MatchHead(s, i, p.head).Some?
    requires forall j :: 0 <= j < i ==> MatchHead(s, j, p.head).None?
    ensures var body := MatchHead(s, i, p.head).value.end;
      SectionText(Some(s), p) == Some(s[body..StopAt(s, body, '[')])
  {
    MatchAtAfterHead(s, i, p);
    var r := Find(s, 0, p);
    assert r.Some? && r.value.start <= i;
    assert r.value.start >= i by {
      assert MatchHead(s, r.value.start, p.head).Some?;
    }
  }

  /** There is a section exactly when the header occurs somewhere. */
  lemma SectionMissingWithoutHeader(s: string, p: Pattern)
    requires p.tail.Run?
    ensures SectionText(Some(s), p).None? <==> forall j :: 0 <= j <= |s| ==> MatchHead(s, j, p.head).None?
  {
    forall j | 0 <= j <= |s| && MatchHead(s, j, p.head).Some? ensures Find(s, 0, p).Some? {
      MatchAtAfterHead(s, j, p);
    }
    if Find(s, 0, p).Some? {
      var m := Find(s, 0, p).value;
      assert MatchHead(s, m.start, p.head).Some?;
    }
  }

  /** The section `sectionRx` captures for a panel: the text after the first
      `[Containments][<id>]` up to the next '['. */
  lemma ContainmentSectionAfterHeader(s: string, id: string, j: nat)
    requires StartsAt(s, j, ContainmentsOpen + id + "]")
    requires forall q: nat :: q < j ==> !StartsAt(s, q, ContainmentsOpen + id + "]")
    ensures var body := j + |ContainmentsOpen + id + "]"|;
      SectionText(Some(s), ContainmentSection(id)) == Some(s[body..StopAt(s, body, '[')])
  {
    var hdr := ContainmentsOpen + id + "]";
    LitHead(s, j, hdr);
    forall q | 0 <= q < j ensures MatchHead(s, q, [Lit(hdr)]).None? {
      LitHead(s, q, hdr);
    }
    SectionAfterFirstHeader(s, ContainmentSection(id), j);
  }

  // ---------------------------------------------------------------------------
  // KDEClockConfig::load

  lemma ClockAppletNumbers(s: string, i: nat)
    requires MatchAt(s, i, ClockApplet).Some?
    ensures |MatchAt(s, i, ClockApplet).value.numbers| == 2
  {
    var h := ClockApplet.head;
    assert h[1..] == [Number, Lit("][Applets]["), Number, Lit("]")];
    assert h[1..][1..] == [Lit("][Applets]["), Number, Lit("]")];
    assert h[1..][1..][1..] == [Number, Lit("]")];
    assert h[1..][1..][1..][1..] == [Lit("]")];
    assert NumberCount(h[1..][1..][1..][1..]) == 0;
    assert NumberCount(h[1..][1..][1..]) == 1;
    assert NumberCount(h[1..][1..]) == 1;
    assert NumberCount(h[1..]) == 2;
    assert NumberCount(h) == 2;
  }

  /** The text of the digital clock applet's `[Configuration][Appearance]`
      section: the applet number comes from the first applet section whose
      text mentions the clock plugin. */
  function AppearanceText(content: string): Option<string>
  {
    match Find(content, 0, ClockApplet)
    case None => None
    case Some(applet) =>
      ClockAppletNumbers(content, applet.start);
      match Find(content, 0, AppearanceSection(applet.numbers[1]))
      case None => None
      case Some(section) => Some(section.capture)
  }

  /** The configuration read field by field from the Appearance section. */
  function ClockFromSection(a: string): ClockConfig
  {
    ClockConfig(
      showDate := ReadBool(a, "showDate", true),
      dateFormat := ReadValue(a, "dateFormat", "shortDate"),
      customDateFormat := ReadValue(a, "customDateFormat", "ddd d"),
      showSeconds := ReadInt(a, "showSeconds", 1),
      use24hFormat := ReadInt(a, "use24hFormat", 1),
      dateDisplayFormat := ReadInt(a, "dateDisplayFormat", 0))
  }

  /** `KDEClockConfig::load` on the contents of
      plasma-org.kde.plasma.desktop-appletsrc. */
  function LoadClock(appletsrc: Option<string>): ClockConfig
  {
    match appletsrc
    case None => DefaultClock
    case Some(content) =>
      match AppearanceText(content)
      case None => DefaultClock
      case Some(a) => ClockFromSection(a)
  }

  /** The value of `key` in the clock's Appearance section: `None` when the
      file, the applet, the section or the key is missing. */
  function ClockSetting(appletsrc: Option<string>, key: string): Option<string>
  {
    match appletsrc
    case None => None
    case Some(content) =>
      match AppearanceText(content)
      case None => None
      case Some(a) => FindValue(a, key)
  }

  /** Every field is its setting when that is present and converts, and the
      struct default otherwise. */
  lemma LoadClockFields(appletsrc: Option<string>)
    ensures var r := LoadClock(appletsrc);
      && r.showDate == (match ClockSetting(appletsrc, "showDate")
                        case None => true
                        case Some(v) => v == "true" || v == "1")
      && r.dateFormat == ClockSetting(appletsrc, "dateFormat").GetOr("shortDate")
      && r.customDateFormat == ClockSetting(appletsrc, "customDateFormat").GetOr("ddd d")
      && r.showSeconds == (match ClockSetting(appletsrc, "showSeconds")
                           case None => 1
                           case Some(v) => ParseInt(v).GetOr(1))
      && r.use24hFormat == (match ClockSetting(appletsrc, "use24hFormat")
                            case None => 1
                            case Some(v) => ParseInt(v).GetOr(1))
      && r.dateDisplayFormat == (match ClockSetting(appletsrc, "dateDisplayFormat")
                                 case None => 0
                                 case Some(v) => ParseInt(v).GetOr(0))
  {
    if appletsrc.Some? && AppearanceText(appletsrc.value).Some? {
      var a := AppearanceText(appletsrc.value).value;
      ReadBoolTotal(a, "showDate", true);
      ReadIntTotal(a, "showSeconds", 1);
      ReadIntTotal(a, "use24hFormat", 1);
      ReadIntTotal(a, "dateDisplayFormat", 0);
    }
  }

  /** With no file, no clock applet, no Appearance section, or a section
      without any of the six keys, the result is exactly the struct defaults. */
  lemma LoadClockDefaults(appletsrc: Option<string>)
    requires ClockSetting(appletsrc, "showDate").None?
    requires ClockSetting(appletsrc, "dateFormat").None?
    requires ClockSetting(appletsrc, "customDateFormat").None?
    requires ClockSetting(appletsrc, "showSeconds").None?
    requires ClockSetting(appletsrc, "use24hFormat").None?
    requires ClockSetting(appletsrc, "dateDisplayFormat").None?
    ensures LoadClock(appletsrc) == DefaultClock
  {
    LoadClockFields(appletsrc);
  }

  // ---------------------------------------------------------------------------
  // KDEPanelConfig::load

  /** The file has a section header `[Containments][<id>][Applets]`. */
  predicate HasApplets(s: string, id: string)
  {
    Contains(s, ContainmentsOpen + id + "][Applets]")
  }

  lemma PanelContainmentShape(s: string, i: nat)
    requires MatchAt(s, i, PanelContainment).Some?
    ensures var m := MatchAt(s, i, PanelContainment).value;
      && |m.numbers| == 1 && |m.numbers[0]| > 0
      && StartsAt(s, i, ContainmentsOpen)
      && m.body == i + |ContainmentsOpen| + |m.numbers[0]| + 1
      && AllDigits(s[i + |ContainmentsOpen|..m.body - 1]) && s[m.body - 1] == ']'
      && i < m.end
      && forall k :: m.body <= k < m.end ==> s[k] != '['
  {
    var m := MatchAt(s, i, PanelContainment).value;
    LitNumberLitHead(s, i, ContainmentsOpen, "]");
  }

  /** '[' occurs in "[Containments][" only at its two ends. */
  lemma BracketsOfOpen(k: nat)
    requires k < |ContainmentsOpen| && ContainmentsOpen[k] == '['
    ensures k == 0 || k == |ContainmentsOpen| - 1
  {
  }

  /** Inside the extent of one containment match, no "[Containments][" starts. */
  lemma NoOpenInside(s: string, i: nat, body: nat, end: nat, q: nat)
    requires StartsAt(s, i, ContainmentsOpen)
    requires i + |ContainmentsOpen| + 1 < body <= |s|
    requires AllDigits(s[i + |ContainmentsOpen|..body - 1]) && s[body - 1] == ']'
    requires end <= |s| && forall k :: body <= k < end ==> s[k] != '['
    requires i < q < end
    ensures !StartsAt(s, q, ContainmentsOpen)
  {
    var o := |ContainmentsOpen|;
    if q + o <= |s| {
      assert s[q..q + o][0] == s[q] && s[q..q + o][1] == s[q + 1];
      if q < i + o {
        assert s[q] == ContainmentsOpen[q - i] by {
          assert s[q] == s[i..i + o][q - i];
        }
        if s[q] == '[' {
          BracketsOfOpen(q - i);
          assert IsDigit(s[q + 1]) by {
            assert s[q + 1] == s[i + o..body - 1][0];
          }
        }
      } else if q < body - 1 {
        assert IsDigit(s[q]) by {
          assert s[q] == s[i + o..body - 1][q - i - o];
        }
      }
    }
  }

  /** No containment match starts strictly inside another: the text between
      a match's start and end holds no '[' that could open one. */
  lemma NoPanelMatchInside(s: string, i: nat, q: nat)
    requires MatchAt(s, i, PanelContainment).Some?
    requires i < q < MatchAt(s, i, PanelContainment).value.end
    ensures MatchAt(s, q, PanelContainment).None?
  {
    var m := MatchAt(s, i, PanelContainment).value;
    PanelContainmentShape(s, i);
    NoOpenInside(s, i, m.body, m.end, q);
    if MatchAt(s, q, PanelContainment).Some? {
      PanelContainmentShape(s, q);
    }
  }

  predicate ClockPanelAt(s: string, i: nat)
  {
    match MatchAt(s, i, PanelContainment)
    case None => false
    case Some(m) =>
      PanelContainmentShape(s, i);
      HasApplets(s, m.numbers[0]) && Contains(s, ClockPlugin)
  }

  function ClockPanels(s: string): nat -> bool
  {
    (i: nat) => ClockPanelAt(s, i)
  }

  /** The number of the panel containment the loop settles on: the first
      `org.kde.panel` containment that has an `[Applets]` section, provided the
      clock plugin occurs anywhere in the file. */
  function ClockPanelId(s: string): Option<string>
  {
    match FirstFrom(ClockPanels(s), 0, |s|)
    case None => None
    case Some(i) =>
      assert ClockPanels(s)(i);
      PanelContainmentShape(s, i);
      Some(MatchAt(s, i, PanelContainment).value.numbers[0])
  }

  /** The text of the chosen containment's own section. */
  function PanelSectionText(applets: Option<string>): Option<string>
  {
    match applets
    case None => None
    case Some(content) =>
      match ClockPanelId(content)
      case None => None
      case Some(id) => SectionText(applets, ContainmentSection(id))
  }

  /** Location and screen as read from the chosen containment's section. */
  function PanelPlacement(applets: Option<string>): PanelConfig
  {
    match PanelSectionText(applets)
    case None => DefaultPanel
    case Some(sec) => DefaultPanel.(location := ReadInt(sec, "location", 4), screen := ReadInt(sec, "lastScreen", 0))
  }

  /** The thickness from plasmashellrc's panel `[Defaults]` section, if any. */
  function WithThickness(c: PanelConfig, shell: Option<string>): PanelConfig
  {
    match SectionText(shell, PanelDefaults)
    case None => c
    case Some(sec) => c.(thickness := ReadInt(sec, "thickness", 44))
  }

  /** The floating flag from the text the floating expression captures, if any. */
  function WithFloating(c: PanelConfig, shell: Option<string>): PanelConfig
  {
    match SectionText(shell, PanelFloating)
    case None => c
    case Some(sec) => c.(floating := ReadBool(sec, "floating", false))
  }

  /** What `KDEPanelConfig::load` computes from the two files. */
  function PanelSpec(applets: Option<string>, shell: Option<string>): PanelConfig
  {
    WithFloating(WithThickness(PanelPlacement(applets), shell), shell)
  }

  /** The `globalMatch` loop of `KDEPanelConfig::load`: walks the matches of
      the panel-containment expression and stops at the first one whose
      number has an `[Applets]` section, when the clock plugin is in the file. */
  method FindClockPanel(content: string) returns (id: Option<string>)
    ensures id == ClockPanelId(content)
  {
    ghost var chosen := FirstFrom(ClockPanels(content), 0, |content|);
    var from := 0;
    var it := Find(content, from, PanelContainment);
    while it.Some?
      invariant from <= |content|
      invariant it == Find(content, from, PanelContainment)
      invariant chosen == FirstFrom(ClockPanels(content), from, |content|)
      decreases |content| - from
    {
      var m := it.value;
      PanelContainmentShape(content, m.start);
      SkipToMatch(content, from, m.start);
      var panelId := m.numbers[0];
      if Contains(content, ContainmentsOpen + panelId + "][Applets]") && Contains(content, ClockPlugin) {
        assert ClockPanels(content)(m.start);
        return Some(panelId);
      }
      assert !ClockPanels(content)(m.start);
      SkipPastMatch(content, m.start);
      from := m.end;
      it := Find(content, from, PanelContainment);
    }
    SkipToEnd(content, from);
    return None;
  }

  /** The first half of `KDEPanelConfig::load`: location and screen from the
      chosen panel containment in plasma-org.kde.plasma.desktop-appletsrc. */
  method ReadPlacement(applets: Option<string>) returns (config: PanelConfig)
    ensures config == PanelPlacement(applets)
  {
    config := DefaultPanel;
    if applets.Some? {
      var panelId := FindClockPanel(applets.value);
      if panelId.Some? {
        var section := SectionText(applets, ContainmentSection(panelId.value));
        if section.Some? {
          config := config.(location := ReadInt(section.value, "location", 4),
                            screen := ReadInt(section.value, "lastScreen", 0));
        }
      }
    }
  }

  /** `KDEPanelConfig::load`: the placement, then thickness and floating from
      plasmashellrc. */
  method LoadPanel(applets: Option<string>, shell: Option<string>) returns (config: PanelConfig)
    ensures config == PanelSpec(applets, shell)
  {
    config := ReadPlacement(applets);
    var defaults := SectionText(shell, PanelDefaults);
    if defaults.Some? {
      config := config.(thickness := ReadInt(defaults.value, "thickness", 44));
    }
    var floating := SectionText(shell, PanelFloating);
    if floating.Some? {
      config := config.(floating := ReadBool(floating.value, "floating", false));
    }
  }

  /** Positions before the next containment match are not accepted ones. */
  lemma SkipToMatch(s: string, from: nat, start: nat)
    requires from <= start <= |s|
    requires forall j :: from <= j < start ==> MatchAt(s, j, PanelContainment).None?
    ensures FirstFrom(ClockPanels(s), from, |s|) == FirstFrom(ClockPanels(s), start, |s|)
  {
    forall j | from <= j < start ensures !ClockPanels(s)(j) {
      assert !ClockPanelAt(s, j);
    }
    FirstFromSkip(ClockPanels(s), from, start, |s|);
  }

  /** A containment match that is not accepted can be skipped to its end. */
  lemma SkipPastMatch(s: string, start: nat)
    requires MatchAt(s, start, PanelContainment).Some?
    requires !ClockPanels(s)(start)
    ensures FirstFrom(ClockPanels(s), start, |s|)
         == FirstFrom(ClockPanels(s), MatchAt(s, start, PanelContainment).value.end, |s|)
  {
    var m := MatchAt(s, start, PanelContainment).value;
    forall j | start <= j < m.end ensures !ClockPanels(s)(j) {
      if j > start {
        NoPanelMatchInside(s, start, j);
        assert !ClockPanelAt(s, j);
      }
    }
    FirstFromSkip(ClockPanels(s), start, m.end, |s|);
  }

  /** With no containment match left there is nothing to accept. */
  lemma SkipToEnd(s: string, from: nat)
    requires from <= |s|
    requires Find(s, from, PanelContainment).None?
    ensures FirstFrom(ClockPanels(s), from, |s|).None?
  {
    forall j | from <= j <= |s| ensures !ClockPanels(s)(j) {
      assert !ClockPanelAt(s, j);
    }
  }

  // ---------------------------------------------------------------------------
  // What KDEPanelConfig::load promises

  /** A panel containment that has applets, in a file mentioning the clock
      plugin, with no such containment before it, is the one chosen. */
  lemma ClockPanelFirst(s: string, i: nat)
    requires ClockPanelAt(s, i)
    requires forall j :: 0 <= j < i ==> !ClockPanelAt(s, j)
    ensures MatchAt(s, i, PanelContainment).Some?
    ensures ClockPanelId(s) == Some(MatchAt(s, i, PanelContainment).value.numbers[0])
  {
    assert ClockPanels(s)(i);
    var m := MatchAt(s, i, PanelContainment).value;
    FirstFromSkip(ClockPanels(s), 0, i, |s|);
    assert FirstFrom(ClockPanels(s), i, |s|) == Some(i);
    PanelContainmentShape(s, i);
  }

  /** Conversely, a chosen panel is a containment that has applets, the clock
      plugin is in the file, and no qualifying containment comes before it. */
  lemma ClockPanelChosen(s: string) returns (i: nat)
    requires ClockPanelId(s).Some?
    ensures ClockPanelAt(s, i) && MatchAt(s, i, PanelContainment).Some?
    ensures forall j :: 0 <= j < i ==> !ClockPanelAt(s, j)
    ensures ClockPanelId(s).value == MatchAt(s, i, PanelContainment).value.numbers[0]
    ensures HasApplets(s, ClockPanelId(s).value) && Contains(s, ClockPlugin)
  {
    i := FirstFrom(ClockPanels(s), 0, |s|).value;
    assert ClockPanels(s)(i);
    forall j | 0 <= j < i ensures !ClockPanelAt(s, j) {
      assert !ClockPanels(s)(j);
    }
  }

  /** Without the clock plugin anywhere in the file, or without the file,
      location stays 4 (bottom) and screen stays 0. */
  lemma PanelWithoutClockPlugin(applets: Option<string>, shell: Option<string>)
    requires applets.None? || !Contains(applets.value, ClockPlugin)
    ensures PanelSpec(applets, shell).location == 4 && PanelSpec(applets, shell).screen == 0
  {
    if applets.Some? && ClockPanelId(applets.value).Some? {
      var i := ClockPanelChosen(applets.value);
    }
  }

  /** Location and screen are the chosen containment's `location` and
      `lastScreen` values when they convert, and 4 and 0 otherwise. */
  lemma PanelPlacementFields(applets: Option<string>, shell: Option<string>)
    ensures PanelSpec(applets, shell).location ==
      match PanelSectionText(applets)
      case None => 4
      case Some(sec) => (match FindValue(sec, "location") case None => 4 case Some(v) => ParseInt(v).GetOr(4))
    ensures PanelSpec(applets, shell).screen ==
      match PanelSectionText(applets)
      case None => 0
      case Some(sec) => (match FindValue(sec, "lastScreen") case None => 0 case Some(v) => ParseInt(v).GetOr(0))
  {
    if PanelSectionText(applets).Some? {
      ReadIntTotal(PanelSectionText(applets).value, "location", 4);
      ReadIntTotal(PanelSectionText(applets).value, "lastScreen", 0);
    }
  }

  /** Thickness is the first panel `[Defaults]` section's `thickness` when it
      converts, and 44 otherwise. */
  lemma PanelThickness(applets: Option<string>, shell: Option<string>)
    ensures PanelSpec(applets, shell).thickness ==
      match SectionText(shell, PanelDefaults)
      case None => 44
      case Some(sec) => (match FindValue(sec, "thickness") case None => 44 case Some(v) => ParseInt(v).GetOr(44))
  {
    if SectionText(shell, PanelDefaults).Some? {
      ReadIntTotal(SectionText(shell, PanelDefaults).value, "thickness", 44);
    }
  }

  /** Floating is read from the text the floating expression captures, and
      is false when there is none. */
  lemma PanelFloatingField(applets: Option<string>, shell: Option<string>)
    ensures PanelSpec(applets, shell).floating ==
      match SectionText(shell, PanelFloating)
      case None => false
      case Some(sec) => (match FindValue(sec, "floating") case None => false case Some(v) => v == "true" || v == "1")
  {
    if SectionText(shell, PanelFloating).Some? {
      ReadBoolTotal(SectionText(shell, PanelFloating).value, "floating", false);
    }
  }

  /** The floating expression's capture ends with "[Defaults]" and holds no
      other '['; when it matches at a `[PlasmaViews][Panel N][Defaults]`
      header its capture is just "[Defaults]", which has no `floating=` line,
      so floating is false. */
  lemma FloatingAtDefaultsHeader(applets: Option<string>, shell: Option<string>)
    requires SectionText(shell, PanelFloating) == Some("[Defaults]")
    ensures !PanelSpec(applets, shell).floating
  {
    NoValueInShortText("[Defaults]", "floating");
    PanelFloatingField(applets, shell);
  }

  /** A text too short to hold `key=` after its first character, and not
      starting with the key, has no value for it. */
  lemma NoValueInShortText(s: string, key: string)
    requires |s| <= |key| + 2
    requires |key| > 0 && |s| > 0 && s[0] != key[0]
    ensures FindValue(s, key).None?
  {
    forall i: nat ensures !KeyValues(s, key)(i) {
      if i == 0 && |key| + 1 <= |s| {
        assert s[0..|key| + 1][0] == s[0];
        assert (key + "=")[0] == key[0];
      }
    }
  }
}
