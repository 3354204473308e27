/** Weather-alert post-processing (api/alert_fetcher.py): directory listings and CAP
    documents, already fetched and parsed into strings and elements, become alert records;
    the alerts whose areas contain a point are then picked out. */
module Alerts {
  import opened Common
  import opened Text
  import opened Calendar

  /** `ALERT_NAMES_BUCKET`: short event names and the alert type each stands for. */
  const AlertNames: map<string, string> := map[
    "weather" := "Weather Advisory",
    "fog" := "Fog Advisory",
    "cold" := "Extreme Cold Warning",
    "freezing drizzle" := "Freezing Drizzle Advisory",
    "freezing rain" := "Freezing Rain Warning",
    "arctic outflow" := "Arctic Outflow Warning",
    "snowfall" := "Snowfall Warning",
    "blowing snow" := "Blowing Snow Advisory",
    "winter storm" := "Winter Storm Watch",
    "snow squall" := "Snow Squall Warning"
  ]

  /** The alert type of an event: its bucket name, or the event text itself, stripped. */
  function CanonicalType(raw: string): string
  {
    Strip(if raw in AlertNames then AlertNames[raw] else raw)
  }

  /** A bucketed event gets its bucket name unchanged; any other event is only stripped. */
  lemma CanonicalTypeSpec(raw: string)
    ensures raw in AlertNames ==> CanonicalType(raw) == AlertNames[raw]
    ensures raw !in AlertNames ==> CanonicalType(raw) == Strip(raw)
  {
    if raw in AlertNames {
      var v := AlertNames[raw];
      assert |v| > 0 && 'A' <= v[0] <= 'Z' && 'a' <= v[|v| - 1] <= 'z';
      LetterNotWhitespace(v[0]);
      LetterNotWhitespace(v[|v| - 1]);
      StripSetUnchanged(v, Whitespace);
    }
  }

  /** An XML element as `find` returns it: present, with its text (`None` for an element
      without text). */
  datatype Element = Element(text: Option<string>)

  /** An `area` element: the texts of its `areaDesc` and of its `polygon` descendants. */
  datatype Area = Area(descs: seq<Element>, polygons: seq<Element>)

  /** An `info` block: the first `language`, `event`, `description`, `urgency`, `severity` and
      `instruction` descendant of each (`None` when there is none), and its `area`s. */
  datatype Info = Info(
    language: Option<Element>,
    event: Option<Element>,
    description: Option<Element>,
    urgency: Option<Element>,
    severity: Option<Element>,
    instruction: Option<Element>,
    areas: seq<Area>)

  /** A polygon vertex as shapely receives it: (longitude, latitude). */
  type Vertex = (real, real)

  datatype Alert = Alert(
    alertType: string,
    description: Option<string>,
    urgency: Option<string>,
    severity: Option<string>,
    instruction: Option<string>,
    areas: seq<string>,
    polygons: seq<seq<Vertex>>)

  /** `el.text if el is not None else ""`; an element without text gives `None`. */
  function TextOrEmpty(e: Option<Element>): (r: Option<string>)
    ensures e.None? ==> r == Some("")
    ensures e.Some? ==> r == e.value.text
  {
    match e
    case None => Some("")
    case Some(el) => el.text
  }

  /** An `info` block counts when its language element reads exactly "en-CA". */
  predicate IsEnglish(info: Info)
  {
    info.language.Some? && info.language.value.text == Some("en-CA")
  }

  /** The area names of some `areaDesc` elements, each text split on " - ", in document
      order; `.split` on a missing text is an `AttributeError`. */
  function DescNames(descs: seq<Element>): Result<seq<string>>
  {
    if |descs| == 0 then Ok([])
    else match descs[0].text
      case None => Err(AttributeError)
      case Some(t) => Chain(Split(t, " - "), DescNames(descs[1..]))
  }

  function AreaNames(areas: seq<Area>): Result<seq<string>>
  {
    if |areas| == 0 then Ok([])
    else match DescNames(areas[0].descs)
      case Err(e) => Err(e)
      case Ok(names) => Chain(names, AreaNames(areas[1..]))
  }

  /** No area name contains the " - " separator, and the names of one description joined
      with it give that description back. */
  lemma DescNamesSpec(t: string)
    ensures DescNames([Element(Some(t))]) == Ok(Split(t, " - "))
    ensures forall k :: 0 <= k < |Split(t, " - ")| ==> !Contains(Split(t, " - ")[k], " - ")
    ensures Join(Split(t, " - "), " - ") == t
  {
    assert [Element(Some(t))][1..] == [];
    assert Split(t, " - ") + [] == Split(t, " - ");
    SplitPiecesFree(t, " - ");
    SplitJoin(t, " - ");
  }

  /** Area names run area by area and description by description. */
  lemma {:induction false} AreaNamesAppend(xs: seq<Area>, ys: seq<Area>)
    requires AreaNames(xs).Ok? && AreaNames(ys).Ok?
    ensures AreaNames(xs + ys) == Ok(AreaNames(xs).value + AreaNames(ys).value)
  {
    if |xs| == 0 {
      assert xs + ys == ys;
      assert [] + AreaNames(ys).value == AreaNames(ys).value;
    } else {
      assert (xs + ys)[1..] == xs[1..] + ys;
      AreaNamesAppend(xs[1..], ys);
      ChainConcat(DescNames(xs[0].descs).value, AreaNames(xs[1..]).value, AreaNames(ys));
    }
  }

  /** `lat, lon = cord.split(",")` then `(float(lon), float(lat))`: anything but two
      numbers is a `ValueError`. */
  function ParseVertex(token: string): Result<Vertex>
  {
    var parts := Split(token, ",");
    if |parts| != 2 then Err(ValueError)
    else match (ParseReal(parts[1]), ParseReal(parts[0]))
      case (Some(lon), Some(lat)) => Ok((lon, lat))
      case _ => Err(ValueError)
  }

  /** A "lat,lon" token gives the vertex (lon, lat): the order is swapped. */
  lemma ParseVertexSpec(latText: string, lonText: string)
    requires ',' !in latText && ',' !in lonText
    ensures ParseVertex(latText + "," + lonText) ==
      if ParseReal(lonText).Some? && ParseReal(latText).Some?
      then Ok((ParseReal(lonText).value, ParseReal(latText).value))
      else Err(ValueError)
  {
    SplitAtFirst(latText, ',', lonText);
    SplitFree(lonText, ',');
    assert latText + "," + lonText == latText + [','] + lonText;
  }

  /** Two comma-free numbers joined by a comma give the vertex of the second, then the
      first. */
  lemma ParseVertexOfReals(latText: string, lonText: string, lat: real, lon: real)
    requires ',' !in latText
    requires ',' !in lonText
    requires ParseReal(latText) == Some(lat)
    requires ParseReal(lonText) == Some(lon)
    ensures ParseVertex(latText + "," + lonText) == Ok((lon, lat))
  {
    ParseVertexSpec(latText, lonText);
  }

  /** Decimal text, signed or not, has no comma. */
  lemma NoCommaInNumerals(lat: nat, west: nat)
    ensures ',' !in NatToString(lat) && ',' !in "-" + NatToString(west)
  {
    var a := NatToString(lat);
    var b := "-" + NatToString(west);
    assert forall i :: 0 <= i < |a| ==> IsDigitChar(a[i]);
    var n := NatToString(west);
    assert forall i :: 1 <= i < |b| ==> b[i] == n[i - 1] && IsDigitChar(n[i - 1]);
  }

  /** The vertex of a latitude and a western longitude written as decimal text, as the
      numbers `x` and `y` those texts read back as. */
  lemma VertexOfNatTexts(lat: nat, west: nat) returns (x: real, y: real)
    ensures x == lat as real && y == -(west as real)
    ensures ParseVertex(NatToString(lat) + "," + ("-" + NatToString(west))) == Ok((y, x))
  {
    NoCommaInNumerals(lat, west);
    ParseRealOfNat(lat);
    ParseRealOfNat(west);
    x, y := lat as real, -(west as real);
    ParseVertexOfReals(NatToString(lat), "-" + NatToString(west), x, y);
  }

  /** A northern, western point written as text comes back as (longitude, latitude). */
  lemma VertexOfDegrees(lat: nat, west: nat)
    ensures ParseVertex(NatToString(lat) + "," + ("-" + NatToString(west))) == Ok((-(west as real), lat as real))
  {
    var x, y := VertexOfNatTexts(lat, west);
  }

  function ParseVertices(tokens: seq<string>): Result<seq<Vertex>>
  {
    if |tokens| == 0 then Ok([])
    else match ParseVertex(tokens[0])
      case Err(e) => Err(e)
      case Ok(v) => Prepend(v, ParseVertices(tokens[1..]))
  }

  /** The vertices of one area: every space-separated token of each of its `polygon`
      texts, in order; a missing text is an `AttributeError`. */
  function AreaVertices(polys: seq<Element>): Result<seq<Vertex>>
  {
    if |polys| == 0 then Ok([])
    else match polys[0].text
      case None => Err(AttributeError)
      case Some(t) =>
        match ParseVertices(Split(t, " "))
        case Err(e) => Err(e)
        case Ok(vs) => Chain(vs, AreaVertices(polys[1..]))
  }

  /** One polygon per `area` element, an area without `polygon` elements giving an empty one. */
  function Polygons(areas: seq<Area>): Result<seq<seq<Vertex>>>
  {
    if |areas| == 0 then Ok([])
    else match AreaVertices(areas[0].polygons)
      case Err(e) => Err(e)
      case Ok(vs) => Prepend(vs, Polygons(areas[1..]))
  }

  /** There is exactly one polygon per area. */
  lemma {:induction false} PolygonsPerArea(areas: seq<Area>)
    requires Polygons(areas).Ok?
    ensures |Polygons(areas).value| == |areas|
    ensures forall k :: 0 <= k < |areas| ==> AreaVertices(areas[k].polygons) == Ok(Polygons(areas).value[k])
  {
    if |areas| > 0 {
      PolygonsPerArea(areas[1..]);
      var P := (vs: seq<Vertex>, a: Area) => AreaVertices(a.polygons) == Ok(vs);
      ConsPointwise(P, AreaVertices(areas[0].polygons).value, Polygons(areas[1..]).value, areas[0], areas[1..]);
      assert areas == [areas[0]] + areas[1..];
    }
  }

  /** One `info` block: `None` unless it is in English; the event lookup, the areas, the
      polygons and the stripping of the type can each fail, in that order. */
  function ParseInfo(info: Info): Result<Option<Alert>>
  {
    if !IsEnglish(info) then Ok(None)
    else if info.event.None? then Err(AttributeError)
    else match AreaNames(info.areas)
      case Err(e) => Err(e)
      case Ok(areas) =>
        match Polygons(info.areas)
        case Err(e) => Err(e)
        case Ok(polygons) =>
          match info.event.value.text
          case None => Err(AttributeError)
          case Some(raw) => Ok(Some(Alert(
            alertType := CanonicalType(raw),
            description := TextOrEmpty(info.description),
            urgency := TextOrEmpty(info.urgency),
            severity := TextOrEmpty(info.severity),
            instruction := TextOrEmpty(info.instruction),
            areas := areas,
            polygons := polygons)))
  }

  /** What one English block yields: its fields, missing ones as "". */
  lemma ParseInfoSpec(info: Info)
    ensures ParseInfo(info).Ok? && ParseInfo(info).value.Some? <==>
      IsEnglish(info) && info.event.Some? && info.event.value.text.Some?
      && AreaNames(info.areas).Ok? && Polygons(info.areas).Ok?
    ensures ParseInfo(info).Ok? && ParseInfo(info).value.Some? ==>
      var alert := ParseInfo(info).value.value;
      && alert.alertType == CanonicalType(info.event.value.text.value)
      && (info.description.None? ==> alert.description == Some(""))
      && (info.urgency.None? ==> alert.urgency == Some(""))
      && (info.severity.None? ==> alert.severity == Some(""))
      && (info.instruction.None? ==> alert.instruction == Some(""))
      && alert.areas == AreaNames(info.areas).value
      && |alert.polygons| == |info.areas|
  {
    if ParseInfo(info).Ok? && ParseInfo(info).value.Some? {
      PolygonsPerArea(info.areas);
    }
  }

  /** A block that parses yields an alert exactly when it is in English. */
  lemma ParseInfoEnglish(info: Info)
    ensures ParseInfo(info).Ok? ==> (ParseInfo(info).value.Some? <==> IsEnglish(info))
  {
  }

  /** The alerts of one CAP document, one per English `info` block. */
  function ParsedAlerts(infos: seq<Info>): Result<seq<Alert>>
  {
    if |infos| == 0 then Ok([])
    else match ParseInfo(infos[0])
      case Err(e) => Err(e)
      case Ok(None) => ParsedAlerts(infos[1..])
      case Ok(Some(alert)) => Prepend(alert, ParsedAlerts(infos[1..]))
  }

  /** `_parse_alert_cap`, given the `info` blocks of the document. */
  method ParseAlertCap(infos: seq<Info>) returns (r: Result<seq<Alert>>)
    ensures r == ParsedAlerts(infos)
  {
    var parsed: seq<Alert> := [];
    ghost var target := ParsedAlerts(infos);
    ChainNil(target);
    for i := 0 to |infos|
      invariant Chain(parsed, ParsedAlerts(infos[i..])) == target
    {
      assert infos[i..][1..] == infos[i + 1..];
      var info := ParseInfo(infos[i]);
      if info.Err? {
        return Err(info.error);
      }
      if info.value.Some? {
        ChainPrepend(parsed, info.value.value, ParsedAlerts(infos[i + 1..]));
        parsed := parsed + [info.value.value];
      }
    }
    assert infos[|infos|..] == [];
    assert parsed + [] == parsed;
    r := Ok(parsed);
  }

  /** `alert` is what the block `info` parses to. */
  predicate AlertOf(alert: Alert, info: Info)
  {
    ParseInfo(info) == Ok(Some(alert))
  }

  /** Exactly the English blocks produce alerts, one each and in document order. */
  lemma {:induction false} ParsedAlertsSpec(infos: seq<Info>)
    requires ParsedAlerts(infos).Ok?
    ensures var alerts := ParsedAlerts(infos).value;
      var english := Filter(infos, IsEnglish);
      && |alerts| == |english|
      && forall k :: 0 <= k < |alerts| ==> AlertOf(alerts[k], english[k])
  {
    if |infos| > 0 {
      ParsedAlertsSpec(infos[1..]);
      ParseInfoEnglish(infos[0]);
      var rest := Filter(infos[1..], IsEnglish);
      var tail := ParsedAlerts(infos[1..]).value;
      if IsEnglish(infos[0]) {
        var a := ParseInfo(infos[0]).value.value;
        assert Filter(infos, IsEnglish) == [infos[0]] + rest;
        assert ParsedAlerts(infos).value == [a] + tail;
        ConsPointwise(AlertOf, a, tail, infos[0], rest);
      } else {
        assert Filter(infos, IsEnglish) == rest;
        assert ParsedAlerts(infos).value == tail;
      }
    }
  }

  /** `_get_office_dirs`: the listed links that start with "C", appended to the base. */
  function OfficeDirs(base: string, hrefs: seq<string>): (dirs: seq<string>)
  {
    var offices := Filter(hrefs, (h: string) => StartsWith(h, "C"));
    seq(|offices|, k requires 0 <= k < |offices| => base + offices[k])
  }

  predicate IsTimeDir(href: string)
  {
    EndsWith(href, "/") && IsDigits(StripSet(href, {'/'}))
  }

  /** `_get_latest_time_dir`: the last listed link that is all digits between its slashes
      and ends with one, appended to the office directory. */
  function LatestTimeDir(office: string, hrefs: seq<string>): Option<string>
  {
    var dirs := Filter(hrefs, IsTimeDir);
    if |dirs| == 0 then None else Some(office + dirs[|dirs| - 1])
  }

  /** The alert links of a time directory: those ending in ".cap". */
  function CapUrls(dir: string, hrefs: seq<string>): seq<string>
  {
    var caps := Filter(hrefs, (h: string) => EndsWith(h, ".cap"));
    seq(|caps|, k requires 0 <= k < |caps| => dir + caps[k])
  }

  /** Which links each directory filter keeps: offices start with "C", alerts end in
      ".cap", each joined to its directory in listing order. */
  lemma DirectoryFilters(base: string, hrefs: seq<string>)
    ensures forall d :: d in OfficeDirs(base, hrefs) <==>
      exists h :: h in hrefs && StartsWith(h, "C") && d == base + h
    ensures forall u :: u in CapUrls(base, hrefs) <==>
      exists h :: h in hrefs && EndsWith(h, ".cap") && u == base + h
  {
    var isOffice := (h: string) => StartsWith(h, "C");
    var isCap := (h: string) => EndsWith(h, ".cap");
    FilterSpec(hrefs, isOffice);
    FilterSpec(hrefs, isCap);
    var offices := Filter(hrefs, isOffice);
    var caps := Filter(hrefs, isCap);
    forall d | d in OfficeDirs(base, hrefs)
      ensures exists h :: h in hrefs && StartsWith(h, "C") && d == base + h
    {
      var k :| 0 <= k < |offices| && d == base + offices[k];
      assert offices[k] in offices;
    }
    forall d | exists h :: h in hrefs && StartsWith(h, "C") && d == base + h
      ensures d in OfficeDirs(base, hrefs)
    {
      var h :| h in hrefs && StartsWith(h, "C") && d == base + h;
      assert h in offices;
      var k :| 0 <= k < |offices| && offices[k] == h;
      assert OfficeDirs(base, hrefs)[k] == d;
    }
    forall u | u in CapUrls(base, hrefs)
      ensures exists h :: h in hrefs && EndsWith(h, ".cap") && u == base + h
    {
      var k :| 0 <= k < |caps| && u == base + caps[k];
      assert caps[k] in caps;
    }
    forall u | exists h :: h in hrefs && EndsWith(h, ".cap") && u == base + h
      ensures u in CapUrls(base, hrefs)
    {
      var h :| h in hrefs && EndsWith(h, ".cap") && u == base + h;
      assert h in caps;
      var k :| 0 <= k < |caps| && caps[k] == h;
      assert CapUrls(base, hrefs)[k] == u;
    }
  }

  /** There is a latest time directory exactly when some link is a time directory, and it
      is the last such link of the listing. */
  lemma LatestTimeDirSpec(office: string, hrefs: seq<string>)
    ensures LatestTimeDir(office, hrefs).None? <==> forall h :: h in hrefs ==> !IsTimeDir(h)
    ensures LatestTimeDir(office, hrefs).Some? ==>
      exists j :: 0 <= j < |hrefs| && IsTimeDir(hrefs[j])
        && LatestTimeDir(office, hrefs).value == office + hrefs[j]
        && forall k :: j < k < |hrefs| ==> !IsTimeDir(hrefs[k])
  {
    LastFiltered(hrefs, IsTimeDir);
    FilterSpec(hrefs, IsTimeDir);
  }

  /** The last element `Filter` keeps is the last element of the input that satisfies `p`. */
  lemma {:induction false} LastFiltered<T>(xs: seq<T>, p: T -> bool)
    ensures var ys := Filter(xs, p);
      |ys| > 0 ==> exists j :: (0 <= j < |xs| && p(xs[j]) && ys[|ys| - 1] == xs[j]
                                && forall k :: j < k < |xs| ==> !p(xs[k]))
  {
    if |xs| > 0 {
      LastFiltered(xs[1..], p);
      var ys := Filter(xs, p);
      var rest := Filter(xs[1..], p);
      if |rest| > 0 {
        var j :| 0 <= j < |xs[1..]| && p(xs[1..][j]) && rest[|rest| - 1] == xs[1..][j]
          && forall k :: j < k < |xs[1..]| ==> !p(xs[1..][k]);
        assert ys[|ys| - 1] == xs[j + 1];
        forall k | j + 1 < k < |xs| ensures !p(xs[k]) {
          assert xs[k] == xs[1..][k - 1];
        }
      } else if |ys| > 0 {
        FilterSpec(xs[1..], p);
        forall k | 0 < k < |xs| ensures !p(xs[k]) {
          assert xs[k] in xs[1..];
        }
      }
    }
  }

  /** The directory of the day's alerts: `strftime("%Y%m%d")` of `today`, twice. */
  function BaseUrl(today: Day): string
  {
    "https://dd.weather.gc.ca/" + CompactDateString(today) + "/WXO-DD/alerts/cap/" + CompactDateString(today) + "/"
  }

  /** The alerts of some CAP documents, in order. */
  function AlertsOfUrls(urls: seq<string>, document: string -> seq<Info>): Result<seq<Alert>>
  {
    if |urls| == 0 then Ok([])
    else match ParsedAlerts(document(urls[0]))
      case Err(e) => Err(e)
      case Ok(alerts) => Chain(alerts, AlertsOfUrls(urls[1..], document))
  }

  /** The alerts of some office directories: an office without a time directory adds none. */
  function AlertsOfOffices(offices: seq<string>, listing: string -> seq<string>,
                           document: string -> seq<Info>): Result<seq<Alert>>
  {
    if |offices| == 0 then Ok([])
    else match LatestTimeDir(offices[0], listing(offices[0]))
      case None => AlertsOfOffices(offices[1..], listing, document)
      case Some(dir) =>
        match AlertsOfUrls(CapUrls(dir, listing(dir)), document)
        case Err(e) => Err(e)
        case Ok(alerts) => Chain(alerts, AlertsOfOffices(offices[1..], listing, document))
  }

  /** The alerts of one time directory, document by document. */
  method AlertsOfDir(urls: seq<string>, document: string -> seq<Info>) returns (r: Result<seq<Alert>>)
    ensures r == AlertsOfUrls(urls, document)
  {
    var found: seq<Alert> := [];
    ghost var target := AlertsOfUrls(urls, document);
    ChainNil(target);
    for i := 0 to |urls|
      invariant Chain(found, AlertsOfUrls(urls[i..], document)) == target
    {
      assert urls[i..][1..] == urls[i + 1..];
      var parsed := ParseAlertCap(document(urls[i]));
      if parsed.Err? {
        return Err(parsed.error);
      }
      ChainConcat(found, parsed.value, AlertsOfUrls(urls[i + 1..], document));
      found := found + parsed.value;
    }
    assert urls[|urls|..] == [];
    assert found + [] == found;
    r := Ok(found);
  }

  /** `_get_all_alerts`: every alert of the latest time directory of every office of the
      day; `listing(url)` is the links of a directory page, `document(url)` the `info`
      blocks of a CAP file. */
  method GetAllAlerts(today: Day, listing: string -> seq<string>, document: string -> seq<Info>)
    returns (r: Result<seq<Alert>>)
    ensures r == AlertsOfOffices(OfficeDirs(BaseUrl(today), listing(BaseUrl(today))), listing, document)
  {
    var base := BaseUrl(today);
    var offices := OfficeDirs(base, listing(base));
    var all: seq<Alert> := [];
    ghost var target := AlertsOfOffices(offices, listing, document);
    ChainNil(target);
    for i := 0 to |offices|
      invariant Chain(all, AlertsOfOffices(offices[i..], listing, document)) == target
    {
      assert offices[i..][1..] == offices[i + 1..];
      var latest := LatestTimeDir(offices[i], listing(offices[i]));
      if latest.None? {
        continue;
      }
      var found := AlertsOfDir(CapUrls(latest.value, listing(latest.value)), document);
      if found.Err? {
        return Err(found.error);
      }
      ChainConcat(all, found.value, AlertsOfOffices(offices[i + 1..], listing, document));
      all := all + found.value;
    }
    assert offices[|offices|..] == [];
    assert all + [] == all;
    r := Ok(all);
  }

  /** An alert as `get_alerts_for_coords` reports it: everything but the polygons. */
  datatype AlertSummary = AlertSummary(
    alertType: string,
    description: Option<string>,
    urgency: Option<string>,
    severity: Option<string>,
    instruction: Option<string>,
    areas: seq<string>)

  function Summarize(a: Alert): (s: AlertSummary)
    ensures s.alertType == a.alertType && s.areas == a.areas
  {
    AlertSummary(a.alertType, a.description, a.urgency, a.severity, a.instruction, a.areas)
  }

  /** Some polygon of the alert contains the point; `inside` is the geometry's containment
      test. */
  predicate Affects(a: Alert, point: Vertex, inside: (seq<Vertex>, Vertex) -> bool)
  {
    exists k :: 0 <= k < |a.polygons| && inside(a.polygons[k], point)
  }

  /** The alerts that affect the point, in order, without their polygons. */
  function Affecting(alerts: seq<Alert>, point: Vertex, inside: (seq<Vertex>, Vertex) -> bool): seq<AlertSummary>
  {
    if |alerts| == 0 then []
    else (if Affects(alerts[0], point, inside) then [Summarize(alerts[0])] else [])
         + Affecting(alerts[1..], point, inside)
  }

  /** The scan of one alert's polygons, which stops at the first that contains the point. */
  method ScanPolygons(a: Alert, point: Vertex, inside: (seq<Vertex>, Vertex) -> bool)
    returns (found: bool)
    ensures found <==> Affects(a, point, inside)
  {
    found := false;
    var k := 0;
    while k < |a.polygons| && !found
      invariant 0 <= k <= |a.polygons|
      invariant found <==> exists q :: 0 <= q < k && inside(a.polygons[q], point)
    {
      if inside(a.polygons[k], point) {
        found := true;
      }
      k := k + 1;
    }
  }

  /** The matching loop of `get_alerts_for_coords`: the first polygon that contains the
      point adds the alert and ends the scan of its polygons. */
  method MatchAlerts(alerts: seq<Alert>, point: Vertex, inside: (seq<Vertex>, Vertex) -> bool)
    returns (matching: seq<AlertSummary>)
    ensures matching == Affecting(alerts, point, inside)
  {
    matching := [];
    ghost var target := Affecting(alerts, point, inside);
    for i := 0 to |alerts|
      invariant matching + Affecting(alerts[i..], point, inside) == target
    {
      assert alerts[i..][1..] == alerts[i + 1..];
      var found := ScanPolygons(alerts[i], point, inside);
      if found {
        matching := matching + [Summarize(alerts[i])];
      }
    }
    assert alerts[|alerts|..] == [];
  }

  /** Every alert that affects the point is reported. */
  lemma {:induction false} AffectingComplete(alerts: seq<Alert>, point: Vertex, inside: (seq<Vertex>, Vertex) -> bool)
    ensures forall k :: 0 <= k < |alerts| && Affects(alerts[k], point, inside) ==>
      Summarize(alerts[k]) in Affecting(alerts, point, inside)
  {
    if |alerts| > 0 {
      var tail := alerts[1..];
      AffectingComplete(tail, point, inside);
      var head := if Affects(alerts[0], point, inside) then [Summarize(alerts[0])] else [];
      var rest := Affecting(tail, point, inside);
      assert Affecting(alerts, point, inside) == head + rest;
      forall k | 0 <= k < |alerts| && Affects(alerts[k], point, inside)
        ensures Summarize(alerts[k]) in head + rest
      {
        if k > 0 {
          assert alerts[k] == tail[k - 1];
          assert Summarize(tail[k - 1]) in rest;
        }
      }
    }
  }

  /** Every reported alert affects the point. */
  lemma {:induction false} AffectingSound(alerts: seq<Alert>, point: Vertex, inside: (seq<Vertex>, Vertex) -> bool)
    ensures forall s :: s in Affecting(alerts, point, inside) ==>
      exists k :: 0 <= k < |alerts| && Affects(alerts[k], point, inside) && s == Summarize(alerts[k])
  {
    if |alerts| > 0 {
      var tail := alerts[1..];
      AffectingSound(tail, point, inside);
      var head := if Affects(alerts[0], point, inside) then [Summarize(alerts[0])] else [];
      var rest := Affecting(tail, point, inside);
      assert Affecting(alerts, point, inside) == head + rest;
      forall s | s in head + rest
        ensures exists k :: 0 <= k < |alerts| && Affects(alerts[k], point, inside) && s == Summarize(alerts[k])
      {
        if s in rest {
          var k :| 0 <= k < |tail| && Affects(tail[k], point, inside) && s == Summarize(tail[k]);
          assert tail[k] == alerts[k + 1];
        } else {
          assert Affects(alerts[0], point, inside) && s == Summarize(alerts[0]);
        }
      }
    }
  }

  /** When every alert affects the point, every alert is reported, in order. */
  lemma {:induction false} AffectingAll(alerts: seq<Alert>, point: Vertex, inside: (seq<Vertex>, Vertex) -> bool)
    requires forall k :: 0 <= k < |alerts| ==> Affects(alerts[k], point, inside)
    ensures Affecting(alerts, point, inside) == seq(|alerts|, k requires 0 <= k < |alerts| => Summarize(alerts[k]))
  {
    if |alerts| > 0 {
      var tail := alerts[1..];
      assert forall k :: 0 <= k < |tail| ==> tail[k] == alerts[k + 1];
      AffectingAll(tail, point, inside);
      assert Affects(alerts[0], point, inside);
    }
  }

  /** The positions of the alerts that affect the point, in ascending order. */
  function Positions(alerts: seq<Alert>, point: Vertex, inside: (seq<Vertex>, Vertex) -> bool): (ps: seq<nat>)
    ensures forall m :: 0 <= m < |ps| ==> ps[m] < |alerts|
  {
    if |alerts| == 0 then []
    else
      var rest := Positions(alerts[1..], point, inside);
      (if Affects(alerts[0], point, inside) then [0] else [])
      + seq(|rest|, m requires 0 <= m < |rest| => rest[m] + 1)
  }

  predicate StrictlyIncreasing(ps: seq<nat>)
  {
    forall m, n :: 0 <= m < n < |ps| ==> ps[m] < ps[n]
  }

  /** Positions are strictly increasing. */
  lemma {:induction false} PositionsAscending(alerts: seq<Alert>, point: Vertex, inside: (seq<Vertex>, Vertex) -> bool)
    ensures StrictlyIncreasing(Positions(alerts, point, inside))
  {
    if |alerts| > 0 {
      PositionsAscending(alerts[1..], point, inside);
      var rest := Positions(alerts[1..], point, inside);
      var head := if Affects(alerts[0], point, inside) then [0] else [];
      var shifted := seq(|rest|, m requires 0 <= m < |rest| => rest[m] + 1);
      var ps := Positions(alerts, point, inside);
      assert ps == head + shifted;
      forall m, n | 0 <= m < n < |ps| ensures ps[m] < ps[n] {
        assert ps[n] == shifted[n - |head|] == rest[n - |head|] + 1;
        if m >= |head| {
          assert ps[m] == shifted[m - |head|] == rest[m - |head|] + 1;
          assert rest[m - |head|] < rest[n - |head|];
        } else {
          assert ps[m] == 0;
        }
      }
    }
  }

  /** The position of every alert that affects the point is listed. */
  lemma {:induction false} PositionsComplete(alerts: seq<Alert>, point: Vertex, inside: (seq<Vertex>, Vertex) -> bool)
    ensures forall k :: 0 <= k < |alerts| && Affects(alerts[k], point, inside) ==> k in Positions(alerts, point, inside)
  {
    if |alerts| > 0 {
      var tail := alerts[1..];
      PositionsComplete(tail, point, inside);
      var rest := Positions(tail, point, inside);
      var head := if Affects(alerts[0], point, inside) then [0] else [];
      var ps := Positions(alerts, point, inside);
      forall k | 0 <= k < |alerts| && Affects(alerts[k], point, inside) ensures k in ps {
        if k > 0 {
          assert tail[k - 1] == alerts[k];
          var j :| 0 <= j < |rest| && rest[j] == k - 1;
          assert ps[|head| + j] == k;
        }
      }
    }
  }

  /** Entry `m` of the report summarises the alert at position `m`, and that alert affects
      the point. */
  lemma {:induction false} AffectingAt(alerts: seq<Alert>, point: Vertex, inside: (seq<Vertex>, Vertex) -> bool)
    ensures var ps := Positions(alerts, point, inside);
      var matching := Affecting(alerts, point, inside);
      && |matching| == |ps|
      && forall m :: 0 <= m < |ps| ==> Affects(alerts[ps[m]], point, inside) && matching[m] == Summarize(alerts[ps[m]])
  {
    if |alerts| > 0 {
      var tail := alerts[1..];
      AffectingAt(tail, point, inside);
      var rest := Positions(tail, point, inside);
      var hit := Affects(alerts[0], point, inside);
      var head := if hit then [0] else [];
      var ps := Positions(alerts, point, inside);
      var matching := Affecting(alerts, point, inside);
      var later := Affecting(tail, point, inside);
      forall m | |head| <= m < |ps|
        ensures Affects(alerts[ps[m]], point, inside) && matching[m] == Summarize(alerts[ps[m]])
      {
        var j := m - |head|;
        assert ps[m] == rest[j] + 1 && matching[m] == later[j];
        assert alerts[ps[m]] == tail[rest[j]];
      }
    }
  }

  /** The report is the alerts at strictly increasing positions, the positions of exactly
      the alerts that affect the point: so each such alert is reported once, in input
      order, and no other alert is. */
  lemma AffectingOrder(alerts: seq<Alert>, point: Vertex, inside: (seq<Vertex>, Vertex) -> bool)
    ensures var ps := Positions(alerts, point, inside);
      var matching := Affecting(alerts, point, inside);
      && |matching| == |ps|
      && (forall m :: 0 <= m < |ps| ==> Affects(alerts[ps[m]], point, inside) && matching[m] == Summarize(alerts[ps[m]]))
      && StrictlyIncreasing(ps)
      && (forall k :: 0 <= k < |alerts| && Affects(alerts[k], point, inside) ==> k in ps)
  {
    AffectingAt(alerts, point, inside);
    PositionsAscending(alerts, point, inside);
    PositionsComplete(alerts, point, inside);
  }

  /** Each alert is reported at most once, exactly when one of its polygons contains the
      point, and in input order. */
  lemma AffectingSpec(alerts: seq<Alert>, point: Vertex, inside: (seq<Vertex>, Vertex) -> bool)
    ensures var matching := Affecting(alerts, point, inside);
      && |matching| <= |alerts|
      && (forall k :: 0 <= k < |alerts| && Affects(alerts[k], point, inside) ==> Summarize(alerts[k]) in matching)
      && (forall s :: s in matching ==> exists k :: 0 <= k < |alerts| && Affects(alerts[k], point, inside) && s == Summarize(alerts[k]))
    ensures (forall k :: 0 <= k < |alerts| ==> Affects(alerts[k], point, inside)) ==>
      Affecting(alerts, point, inside) == seq(|alerts|, k requires 0 <= k < |alerts| => Summarize(alerts[k]))
  {
    AffectingLength(alerts, point, inside);
    AffectingComplete(alerts, point, inside);
    AffectingSound(alerts, point, inside);
    if forall k :: 0 <= k < |alerts| ==> Affects(alerts[k], point, inside) {
      AffectingAll(alerts, point, inside);
    }
  }

  lemma {:induction false} AffectingLength(alerts: seq<Alert>, point: Vertex, inside: (seq<Vertex>, Vertex) -> bool)
    ensures |Affecting(alerts, point, inside)| <= |alerts|
  {
    if |alerts| > 0 {
      AffectingLength(alerts[1..], point, inside);
    }
  }

  /** `get_alerts_for_coords`: the day's alerts that affect the point (`lon`, `lat`). */
  method GetAlertsForCoords(lat: real, lon: real, today: Day, listing: string -> seq<string>,
                            document: string -> seq<Info>, inside: (seq<Vertex>, Vertex) -> bool)
    returns (r: Result<seq<AlertSummary>>)
    ensures var all := AlertsOfOffices(OfficeDirs(BaseUrl(today), listing(BaseUrl(today))), listing, document);
      && (r.Err? <==> all.Err?)
      && (r.Ok? ==> r.value == Affecting(all.value, (lon, lat), inside))
  {
    var all := GetAllAlerts(today, listing, document);
    if all.Err? {
      return Err(all.error);
    }
    var matching := MatchAlerts(all.value, (lon, lat), inside);
    r := Ok(matching);
  }
}
