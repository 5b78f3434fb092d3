/** The weather alerts card: the icon and the colour scheme for an alert's
    severity, and what the card shows for a list of alerts. Relative times
    come from a given formatter. */
module WeatherAlerts {
  import opened Common

  /** `WeatherAlert`; the kind and severity are kept as the strings the
      helpers take. */
  datatype WeatherAlert = WeatherAlert(id: string, kind: string, title: string, description: string,
                                       startTime: string, endTime: string, severity: string)

  datatype AlertGlyph = AlertTriangle | AlertCircle | Info

  /** An icon as drawn: which glyph, its size and its colour class. */
  datatype AlertIconView = AlertIconView(glyph: AlertGlyph, size: int, colour: string)

  const IconSize: int := 20

  /** The colour families the card uses. */
  datatype Hue = Red | Orange | Yellow | Blue

  function HueName(h: Hue): string {
    match h
    case Red => "red"
    case Orange => "orange"
    case Yellow => "yellow"
    case Blue => "blue"
  }

  /** `getAlertIcon`: extreme and high share the red triangle, medium has the
      yellow circle, and every other severity the blue info sign. */
  function AlertIcon(kind: string, severity: string): (v: AlertIconView)
    ensures v.size == 20
    ensures v.glyph == AlertTriangle <==> severity == "extreme" || severity == "high"
    ensures v.glyph == AlertCircle <==> severity == "medium"
    ensures v.glyph == Info <==> severity !in {"extreme", "high", "medium"}
  {
    if severity == "extreme" || severity == "high" then AlertIconView(AlertTriangle, IconSize, "text-red-500")
    else if severity == "medium" then AlertIconView(AlertCircle, IconSize, "text-yellow-500")
    else AlertIconView(Info, IconSize, "text-blue-500")
  }

  /** The hue of the icon: red, yellow or blue. */
  function IconHue(severity: string): Hue {
    if severity == "extreme" || severity == "high" then Red
    else if severity == "medium" then Yellow
    else Blue
  }

  /** The icon depends on the severity alone, and its colour class is the
      500 shade of its hue. */
  lemma AlertIconIgnoresKind(k1: string, k2: string, severity: string)
    ensures AlertIcon(k1, severity) == AlertIcon(k2, severity)
    ensures AlertIcon(k1, severity).colour == "text-" + HueName(IconHue(severity)) + "-500"
  {
  }

  /** `getAlertStyles`: left border, background and dark background. */
  function AlertStyles(severity: string): string {
    match severity
    case "extreme" => StylesExtreme
    case "high" => StylesHigh
    case "medium" => StylesMedium
    case _ => StylesOther
  }

  const StylesExtreme: string := "border-red-500 bg-red-50 dark:bg-red-950/20"
  const StylesHigh: string := "border-orange-500 bg-orange-50 dark:bg-orange-950/20"
  const StylesMedium: string := "border-yellow-500 bg-yellow-50 dark:bg-yellow-950/20"
  const StylesOther: string := "border-blue-500 bg-blue-50 dark:bg-blue-950/20"

  /** The hue of the styles: one per named severity, blue for the rest. */
  function StyleHue(severity: string): Hue {
    match severity
    case "extreme" => Red
    case "high" => Orange
    case "medium" => Yellow
    case _ => Blue
  }

  /** The style the switch gives each hue. */
  function StylesOf(h: Hue): string {
    match h
    case Red => StylesExtreme
    case Orange => StylesHigh
    case Yellow => StylesMedium
    case Blue => StylesOther
  }

  /** The style of a hue ends in that hue's dark background. */
  predicate EndsInHue(s: string, h: string) {
    |s| >= |h| + 7 && s[|s| - |h| - 7..] == h + "-950/20"
  }

  lemma StylesOfEndsInHue(h: Hue)
    ensures EndsInHue(StylesOf(h), HueName(h))
  {
    match h
    case Red => RedEnds();
    case Orange => OrangeEnds();
    case Yellow => YellowEnds();
    case Blue => BlueEnds();
  }

  lemma RedEnds() ensures EndsInHue(StylesExtreme, "red") {
    assert StylesExtreme[|StylesExtreme| - 10..] == "red-950/20";
  }

  lemma OrangeEnds() ensures EndsInHue(StylesHigh, "orange") {
    assert StylesHigh[|StylesHigh| - 13..] == "orange-950/20";
  }

  lemma YellowEnds() ensures EndsInHue(StylesMedium, "yellow") {
    assert StylesMedium[|StylesMedium| - 13..] == "yellow-950/20";
  }

  lemma BlueEnds() ensures EndsInHue(StylesOther, "blue") {
    assert StylesOther[|StylesOther| - 11..] == "blue-950/20";
  }

  /** Every style ends in the dark background of the severity's hue. */
  lemma AlertStylesHue(severity: string)
    ensures EndsInHue(AlertStyles(severity), HueName(StyleHue(severity)))
  {
    assert AlertStyles(severity) == StylesOf(StyleHue(severity));
    StylesOfEndsInHue(StyleHue(severity));
  }

  /** The ninth-last character of a style, which differs between hues. */
  function HueKey(h: Hue): char {
    match h
    case Red => 'e'
    case Orange => 'g'
    case Yellow => 'o'
    case Blue => 'u'
  }

  lemma AlertStylesKey(severity: string)
    ensures |AlertStyles(severity)| >= 9
    ensures AlertStyles(severity)[|AlertStyles(severity)| - 9] == HueKey(StyleHue(severity))
  {
    assert StylesExtreme[|StylesExtreme| - 9] == 'e';
    assert StylesHigh[|StylesHigh| - 9] == 'g';
    assert StylesMedium[|StylesMedium| - 9] == 'o';
    assert StylesOther[|StylesOther| - 9] == 'u';
  }

  /** Two severities look alike exactly when they have the same hue: the four
      named severities each have their own style, and every other severity
      looks like "low". */
  lemma AlertStylesDistinct(s1: string, s2: string)
    ensures AlertStyles(s1) == AlertStyles(s2) <==> StyleHue(s1) == StyleHue(s2)
    ensures StyleHue(s1) == StyleHue(s2) <==>
              s1 == s2 || (s1 !in {"extreme", "high", "medium"} && s2 !in {"extreme", "high", "medium"})
  {
    AlertStylesKey(s1);
    AlertStylesKey(s2);
  }

  /** The icon and the card agree on the colour except for a high alert, whose
      icon is red on an orange card. */
  lemma IconAndStyleHues(severity: string)
    ensures IconHue(severity) == StyleHue(severity) <==> severity != "high"
  {
  }

  // ---------------------------------------------------------------- the card

  /** One alert as listed: the classes given to the class-name merger (its
      merging is not part of this model), the icon, and the text shown. */
  datatype Entry = Entry(key: string, classes: seq<string>, icon: AlertIconView, title: string,
                         kindLabel: string, severityLabel: string, description: string, period: string)

  /** What the card shows: the count badge, the empty-state message, the
      entries and the quick actions. */
  datatype CardView = CardView(badge: Option<nat>, emptyState: bool, entries: seq<Entry>, quickActions: bool)

  const EntryBaseClasses: string := "p-4 rounded-lg border-l-4 transition-all hover:shadow-sm"

  function EntryOf(a: WeatherAlert, relative: string -> string): (e: Entry)
    ensures e.key == a.id && e.icon == AlertIcon(a.kind, a.severity)
    ensures e.classes == [EntryBaseClasses, AlertStyles(a.severity)]
  {
    Entry(a.id, [EntryBaseClasses, AlertStyles(a.severity)], AlertIcon(a.kind, a.severity), a.title,
          a.kind, a.severity + " severity", a.description, relative(a.startTime) + " - " + relative(a.endTime))
  }

  /** `WeatherAlertsCard` over a list of alerts. */
  function Card(alerts: seq<WeatherAlert>, relative: string -> string): (v: CardView)
    ensures v.badge.Some? <==> |alerts| > 0
    ensures v.badge.Some? ==> v.badge.value == |alerts|
    ensures v.emptyState <==> |alerts| == 0
    ensures v.quickActions <==> |alerts| > 0
    ensures |v.entries| == |alerts|
    ensures forall i :: 0 <= i < |alerts| ==> v.entries[i] == EntryOf(alerts[i], relative)
  {
    CardView(if |alerts| > 0 then Some(|alerts|) else None,
             |alerts| == 0,
             if |alerts| == 0 then [] else seq(|alerts|, i requires 0 <= i < |alerts| => EntryOf(alerts[i], relative)),
             |alerts| > 0)
  }

  /** The card shows either the empty-state message or the badge, the
      entries and the quick actions, never both. */
  lemma CardEmptyOrListed(alerts: seq<WeatherAlert>, relative: string -> string)
    ensures Card(alerts, relative).emptyState <==> Card(alerts, relative).badge.None?
    ensures Card(alerts, relative).emptyState <==> !Card(alerts, relative).quickActions
    ensures Card(alerts, relative).emptyState <==> |Card(alerts, relative).entries| == 0
  {
  }

  /** Each listed alert's icon and border match its own severity, in list
      order. */
  lemma CardEntriesFollowSeverity(alerts: seq<WeatherAlert>, relative: string -> string, i: nat)
    requires i < |alerts|
    ensures Card(alerts, relative).entries[i].key == alerts[i].id
    ensures Card(alerts, relative).entries[i].icon.glyph == AlertTriangle
            <==> alerts[i].severity == "extreme" || alerts[i].severity == "high"
    ensures Card(alerts, relative).entries[i].classes[1] == AlertStyles(alerts[i].severity)
  {
  }
}
