/** The explanation engine of the service (api/explainer.py): once each feature of a row
    has an attribution, pick the strongest snow/precipitation, wind and other feature, say
    which way each pushed the prediction, and describe its value in words. */
module Explainer {
  import opened Common
  import opened Text

  /** One entry of a row's bucket table: values up to `threshold` get `label`. */
  datatype Bucket = Bucket(threshold: real, name: Option<string>)

  const SnowNames: set<string> := {"snowfall", "snowfall_overnight", "snowfall_24h", "snowfall_last_24h", "snowfall_last_12h",
     "snow_depth"}

  /** The `FEATURE_BUCKETS` tables for snowfall and snow depth, each with rising
      thresholds; no table for any other name. */
  function SnowTables(base: string): (bs: seq<Bucket>)
    ensures StepsUp(bs)
  {
    if base == "snowfall" then
      [Bucket(0.0, Some("No Snowfall")), Bucket(2.0, Some("Light Snowfall")),
       Bucket(7.0, Some("Moderate Snowfall")), Bucket(15.0, Some("Heavy Snowfall")),
       Bucket(999.0, Some("Extreme Snowfall"))]
    else if base == "snowfall_overnight" then
      [Bucket(0.0, Some("No Overnight Snowfall")), Bucket(2.0, Some("Light Overnight Snowfall")),
       Bucket(7.0, Some("Moderate Overnight Snowfall")), Bucket(15.0, Some("Heavy Overnight Snowfall")),
       Bucket(999.0, Some("Extreme Overnight Snowfall"))]
    else if base == "snowfall_24h" then
      [Bucket(0.0, Some("No Snowfall (Daily Total)")), Bucket(5.0, Some("Light Snowfall (Daily Total)")),
       Bucket(15.0, Some("Moderate Snowfall (Daily Total)")), Bucket(30.0, Some("Heavy Snowfall (Daily Total)")),
       Bucket(999.0, Some("Extreme Snowfall (Daily Total)"))]
    else if base == "snowfall_last_24h" then
      [Bucket(0.0, Some("No Snowfall (past 24h)")), Bucket(5.0, Some("Light Snowfall (past 24h)")),
       Bucket(15.0, Some("Moderate Snowfall (past 24h)")), Bucket(30.0, Some("Heavy Snowfall (past 24h)")),
       Bucket(999.0, Some("Extreme Snowfall (past 24h)"))]
    else if base == "snowfall_last_12h" then
      [Bucket(0.0, Some("No Snowfall (past 12h)")), Bucket(5.0, Some("Light Snowfall (past 12h)")),
       Bucket(15.0, Some("Moderate Snowfall (past 12h)")), Bucket(30.0, Some("Heavy Snowfall (past 12h)")),
       Bucket(999.0, Some("Extreme Snowfall (past 12h)"))]
    else if base == "snow_depth" then
      [Bucket(0.0, Some("No Snow Accumulation")), Bucket(10.0, Some("Notable Snow Accumulation")),
       Bucket(25.0, Some("Deep Snow Accumulation")), Bucket(999.0, Some("Extreme Snow Accumulation"))]
    else []
  }

  const PrecipitationNames: set<string> := {"precipitation", "precipitation_overnight", "precipitation_24h"}

  /** The `FEATURE_BUCKETS` tables for precipitation, each with rising thresholds; no
      table for any other name. */
  function PrecipitationTables(base: string): (bs: seq<Bucket>)
    ensures StepsUp(bs)
  {
    if base == "precipitation" then
      [Bucket(0.0, Some("No Precipitation")), Bucket(2.0, Some("Light Precipitation")),
       Bucket(8.0, Some("Moderate Precipitation")), Bucket(999.0, Some("Heavy Precipitation"))]
    else if base == "precipitation_overnight" then
      [Bucket(0.0, Some("No Overnight Precipitation")), Bucket(2.0, Some("Light Overnight Precipitation")),
       Bucket(8.0, Some("Moderate Overnight Precipitation")), Bucket(999.0, Some("Heavy Overnight Precipitation"))]
    else if base == "precipitation_24h" then
      [Bucket(0.0, Some("No Precipitation (24h)")), Bucket(5.0, Some("Light Precipitation (24h)")),
       Bucket(15.0, Some("Moderate Precipitation (24h)")), Bucket(999.0, Some("Heavy Precipitation (24h)"))]
    else []
  }

  const TemperatureNames: set<string> := {"temperature", "temp_min_overnight"}

  /** The `FEATURE_BUCKETS` tables for temperature, each with rising thresholds; no
      table for any other name. */
  function TemperatureTables(base: string): (bs: seq<Bucket>)
    ensures StepsUp(bs)
  {
    if base == "temperature" then
      [Bucket(-25.0, Some("Extreme Cold Temperatures")), Bucket(-15.0, Some("Very Cold Temperatures")),
       Bucket(-8.0, Some("Cold Temperatures")), Bucket(-2.0, Some("Near Freezing Temperatures")),
       Bucket(999.0, Some("Above Freezing Temperatures"))]
    else if base == "temp_min_overnight" then
      [Bucket(-25.0, Some("Extreme Overnight Cold")), Bucket(-15.0, Some("Very Cold Overnight Temperatures")),
       Bucket(-8.0, Some("Cold Overnight Temperatures")), Bucket(-2.0, Some("Near Freezing Overnight Temperatures")),
       Bucket(999.0, Some("Mild Overnight Temperatures"))]
    else []
  }

  const WindNames: set<string> := {"wind_speed", "wind_speed_avg_overnight", "wind_gusts", "wind_gusts_max_overnight"}

  /** The `FEATURE_BUCKETS` tables for wind speed and gusts, each with rising thresholds;
      no table for any other name. */
  function WindTables(base: string): (bs: seq<Bucket>)
    ensures StepsUp(bs)
  {
    if base == "wind_speed" then
      [Bucket(10.0, Some("Calm Wind Speeds")), Bucket(25.0, Some("Breezy Wind Speeds")),
       Bucket(40.0, Some("Strong Wind Speeds")), Bucket(60.0, Some("Very Strong Wind Speeds")),
       Bucket(999.0, Some("Extreme Wind Speeds"))]
    else if base == "wind_speed_avg_overnight" then
      [Bucket(10.0, Some("Calm Overnight Winds")), Bucket(25.0, Some("Breezy Overnight Winds")),
       Bucket(40.0, Some("Strong Overnight Winds")), Bucket(60.0, Some("Very Strong Overnight Winds")),
       Bucket(999.0, Some("Extreme Overnight Winds"))]
    else if base == "wind_gusts" then
      [Bucket(20.0, Some("Light Wind Gusts")), Bucket(40.0, Some("Strong Wind Gusts")),
       Bucket(70.0, Some("Severe Wind Gusts")), Bucket(999.0, Some("Extreme Wind Gusts"))]
    else if base == "wind_gusts_max_overnight" then
      [Bucket(20.0, Some("Light Overnight Wind Gusts")), Bucket(40.0, Some("Strong Overnight Wind Gusts")),
       Bucket(70.0, Some("Severe Overnight Wind Gusts")), Bucket(999.0, Some("Extreme Overnight Wind Gusts"))]
    else []
  }

  const OtherNames: set<string> := {"dewpoint_avg_overnight", "freezing_rain", "weather_code", "no_snowfall_penalty"}

  /** The `FEATURE_BUCKETS` tables for dew point, freezing rain, the weather code and the
      snowfall penalty, each with rising thresholds; no table for any other name. */
  function OtherTables(base: string): (bs: seq<Bucket>)
    ensures StepsUp(bs)
  {
    if base == "dewpoint_avg_overnight" then
      [Bucket(-15.0, Some("Extremely Dry Overnight Air")), Bucket(-5.0, Some("Dry Overnight Air")),
       Bucket(0.0, Some("Near Freezing Dew Point")), Bucket(999.0, Some("Moist Overnight Air"))]
    else if base == "freezing_rain" then
      [Bucket(0.0, Some("No Freezing Rain")), Bucket(1.0, Some("Freezing Rain Conditions"))]
    else if base == "weather_code" then
      [Bucket(66.0, Some("Freezing Rain")), Bucket(67.0, Some("Heavy Freezing Rain")),
       Bucket(71.0, Some("Snowfall")), Bucket(73.0, Some("Heavy Snowfall")),
       Bucket(75.0, Some("Extreme Snowfall")), Bucket(77.0, Some("Snow Grains")),
       Bucket(85.0, Some("Snow Showers")), Bucket(86.0, Some("Heavy Snow Showers"))]
    else if base == "no_snowfall_penalty" then
      [Bucket(0.0, None), Bucket(1.0, Some("No Snowfall Overnight")), Bucket(2.0, Some("No Snowfall (24h)"))]
    else []
  }

  /** The keys of `FEATURE_BUCKETS`: the base names that have a bucket table. */
  const TableNames: set<string> := SnowNames + PrecipitationNames + TemperatureNames + WindNames + OtherNames

  /** `FEATURE_BUCKETS.get(base, [])`: the bucket table of a base feature, and no table
      for any other name (the groups share no key); the `False`/`True` thresholds of
      `freezing_rain` read as 0 and 1. */
  function Buckets(base: string): (bs: seq<Bucket>)
    ensures StepsUp(bs)
  {
    if |SnowTables(base)| > 0 then SnowTables(base)
    else if |PrecipitationTables(base)| > 0 then PrecipitationTables(base)
    else if |TemperatureTables(base)| > 0 then TemperatureTables(base)
    else if |WindTables(base)| > 0 then WindTables(base)
    else OtherTables(base)
  }

  /** Thresholds strictly increase along the table. */
  predicate Ascending(bs: seq<Bucket>)
  {
    forall i, j :: 0 <= i < j < |bs| ==> bs[i].threshold < bs[j].threshold
  }

  /** The position of the first bucket whose threshold is not below `value`. */
  function FirstBucket(bs: seq<Bucket>, value: real): (r: Option<nat>)
    ensures r.Some? ==> r.value < |bs| && value <= bs[r.value].threshold
    ensures r.Some? ==> forall j :: 0 <= j < r.value ==> bs[j].threshold < value
    ensures r.None? ==> forall j :: 0 <= j < |bs| ==> bs[j].threshold < value
  {
    if |bs| == 0 then None
    else if value <= bs[0].threshold then Some(0)
    else match FirstBucket(bs[1..], value)
      case None => None
      case Some(i) => Some(i + 1)
  }

  /** A trailing digit of a feature name read as an hour: `temperature3` is hour 3 of
      `temperature`; any other name is its own base key. */
  function SplitHour(feature: string): (r: (string, Option<nat>))
    ensures r.1.Some? ==> r.1.value < 10 && feature == r.0 + [DigitChar(r.1.value)]
    ensures r.1.None? ==> r.0 == feature && (|feature| == 0 || !IsDigitChar(feature[|feature| - 1]))
  {
    if |feature| > 0 && IsDigitChar(feature[|feature| - 1]) then
      (feature[..|feature| - 1], Some(DigitValue(feature[|feature| - 1])))
    else (feature, None)
  }

  /** The hour shown in a label: the hour itself, except that hour 0 is shown as 12. */
  function HourText(hour: nat): string
  {
    if hour != 0 then NatToString(hour) else "12"
  }

  /** A label formatted into a string: a missing label formats as "None". */
  function LabelText(name: Option<string>): string
  {
    if name.Some? then name.value else "None"
  }

  /** The label of `value` in the table `bs`, with the hour suffix of an hourly feature. */
  function Describe(bs: seq<Bucket>, hour: Option<nat>, value: real): Option<string>
  {
    match FirstBucket(bs, value)
    case None => None
    case Some(i) =>
      var text := LabelText(bs[i].name);
      Some(if hour.None? then text else text + " (" + HourText(hour.value) + " am)")
  }

  /** `HumanizeFeatureValue`; `None` when the name has no table or the value is above every
      threshold. */
  function Humanize(feature: string, value: real): Option<string>
  {
    var (base, hour) := SplitHour(feature);
    Describe(Buckets(base), hour, value)
  }

  /** Each threshold is below the next one. */
  predicate StepsUp(bs: seq<Bucket>)
  {
    |bs| < 2 || (bs[0].threshold < bs[1].threshold && StepsUp(bs[1..]))
  }

  /** Thresholds that rise at every step rise between any two positions. */
  lemma {:induction false} StepsUpAscending(bs: seq<Bucket>)
    requires StepsUp(bs)
    ensures Ascending(bs)
  {
    if |bs| >= 2 {
      var tail := bs[1..];
      StepsUpAscending(tail);
      forall i, j | 0 <= i < j < |bs| ensures bs[i].threshold < bs[j].threshold {
        if i > 0 {
          assert bs[i] == tail[i - 1] && bs[j] == tail[j - 1];
        } else if j > 1 {
          assert bs[1] == tail[0] && bs[j] == tail[j - 1];
        }
      }
    }
  }

  /** Every table of `FEATURE_BUCKETS` has strictly increasing thresholds. */
  /** Each group of tables has a table for exactly its own names. */
  lemma SnowNamed(base: string)
    ensures |SnowTables(base)| > 0 <==> base in SnowNames
  {
  }

  lemma PrecipitationNamed(base: string)
    ensures |PrecipitationTables(base)| > 0 <==> base in PrecipitationNames
  {
  }

  lemma TemperatureNamed(base: string)
    ensures |TemperatureTables(base)| > 0 <==> base in TemperatureNames
  {
  }

  lemma WindNamed(base: string)
    ensures |WindTables(base)| > 0 <==> base in WindNames
  {
  }

  lemma OtherNamed(base: string)
    ensures |OtherTables(base)| > 0 <==> base in OtherNames
  {
  }

  /** Exactly the keys of `FEATURE_BUCKETS` have a table; any other name gets none. */
  lemma BucketsNamed(base: string)
    ensures |Buckets(base)| > 0 <==> base in TableNames
  {
    SnowNamed(base);
    PrecipitationNamed(base);
    TemperatureNamed(base);
    WindNamed(base);
    OtherNamed(base);
  }

  lemma BucketsAscending(base: string)
    ensures Ascending(Buckets(base))
  {
    StepsUpAscending(Buckets(base));
  }

  /** Over an ascending table, a value exactly at a threshold gets that bucket's label. */
  lemma {:induction false} AtThreshold(bs: seq<Bucket>, i: nat)
    requires Ascending(bs) && i < |bs|
    ensures FirstBucket(bs, bs[i].threshold) == Some(i)
  {
    if i > 0 {
      assert bs[1..][i - 1] == bs[i];
      AtThreshold(bs[1..], i - 1);
    }
  }

  /** A larger value never gets an earlier bucket. */
  lemma BucketMonotone(bs: seq<Bucket>, v: real, w: real)
    requires v <= w && FirstBucket(bs, w).Some?
    ensures FirstBucket(bs, v).Some? && FirstBucket(bs, v).value <= FirstBucket(bs, w).value
  {
  }

  /** Over any table: no label when the value exceeds every threshold; otherwise the first
      bucket at or above the value names it, followed by the hour suffix if there is one. */
  lemma DescribeSpec(bs: seq<Bucket>, hour: Option<nat>, value: real)
    ensures Describe(bs, hour, value).None? <==> forall j :: 0 <= j < |bs| ==> bs[j].threshold < value
    ensures Describe(bs, hour, value).Some? ==>
      exists i :: 0 <= i < |bs|
        && value <= bs[i].threshold
        && (forall j :: 0 <= j < i ==> bs[j].threshold < value)
        && Describe(bs, hour, value).value ==
             LabelText(bs[i].name) + (if hour.None? then "" else " (" + HourText(hour.value) + " am)")
  {
    match FirstBucket(bs, value)
    case None =>
    case Some(i) =>
      var text := LabelText(bs[i].name);
      if hour.None? {
        assert text + "" == text;
      }
  }

  /** What `HumanizeFeatureValue` returns: nothing when the base key has no table or the
      value exceeds every threshold; otherwise the first bucket at or above the value names
      it, with " (H am)" appended for an hourly feature. */
  lemma HumanizeSpec(feature: string, value: real)
    ensures var (base, hour) := SplitHour(feature);
      var bs := Buckets(base);
      && (Humanize(feature, value).None? <==> forall j :: 0 <= j < |bs| ==> bs[j].threshold < value)
      && (Humanize(feature, value).Some? ==>
            exists i :: 0 <= i < |bs|
              && value <= bs[i].threshold
              && (forall j :: 0 <= j < i ==> bs[j].threshold < value)
              && Humanize(feature, value).value ==
                   LabelText(bs[i].name) + (if hour.None? then "" else " (" + HourText(hour.value) + " am)"))
  {
    var (base, hour) := SplitHour(feature);
    DescribeSpec(Buckets(base), hour, value);
  }

  /** An hourly feature named after a table: its hour digit comes back as the suffix, hour
      0 as "12 am". */
  lemma HumanizeHourly(base: string, hour: nat, value: real)
    requires hour < 10
    requires FirstBucket(Buckets(base), value).Some?
    ensures var i := FirstBucket(Buckets(base), value).value;
      Humanize(base + [DigitChar(hour)], value)
        == Some(LabelText(Buckets(base)[i].name) + " (" + HourText(hour) + " am)")
    ensures hour == 0 ==> HourText(hour) == "12"
  {
    var feature := base + [DigitChar(hour)];
    assert feature[..|feature| - 1] == base;
    assert DigitValue(DigitChar(hour)) == hour;
  }

  /** The penalty's lowest bucket has no label, which formats as the text "None", not as
      a missing value; the other two levels name themselves. */
  lemma PenaltyLabels(value: real)
    ensures value <= 0.0 ==> Humanize("no_snowfall_penalty", value) == Some("None")
    ensures 0.0 < value <= 1.0 ==> Humanize("no_snowfall_penalty", value) == Some("No Snowfall Overnight")
    ensures 1.0 < value <= 2.0 ==> Humanize("no_snowfall_penalty", value) == Some("No Snowfall (24h)")
    ensures 2.0 < value ==> Humanize("no_snowfall_penalty", value).None?
  {
    var f := "no_snowfall_penalty";
    assert !IsDigitChar(f[|f| - 1]);
    assert SplitHour(f) == (f, None);
    var bs := Buckets(f);
    assert bs == [Bucket(0.0, None), Bucket(1.0, Some("No Snowfall Overnight")), Bucket(2.0, Some("No Snowfall (24h)"))];
    assert Humanize(f, value) == Describe(bs, None, value);
    if value <= 0.0 {
      assert FirstBucket(bs, value) == Some(0);
    } else if value <= 1.0 {
      assert FirstBucket(bs, value) == Some(1);
    } else if value <= 2.0 {
      assert value <= bs[2].threshold;
      assert bs[0].threshold < value && bs[1].threshold < value;
      assert FirstBucket(bs, value) == Some(2);
    } else {
      assert FirstBucket(bs, value) == None;
    }
  }

  /** One feature of a row with its attribution (the model's push towards a snow day) and
      its value. */
  datatype Attribution = Attribution(name: string, impact: real, value: real)

  /** One entry of a row's explanation. */
  datatype Explanation = Explanation(
    feature: string, impact: real, value: real, direction: string, humanizedValue: Option<string>)

  predicate IsWeatherCode(a: Attribution)
  {
    StartsWith(a.name, "weather_code")
  }

  predicate InSnowGroup(a: Attribution)
  {
    Contains(a.name, "snow") || Contains(a.name, "precip")
  }

  predicate InWindGroup(a: Attribution)
  {
    Contains(a.name, "wind")
  }

  predicate InOtherGroup(a: Attribution)
  {
    !Contains(a.name, "snow") && !Contains(a.name, "wind") && !Contains(a.name, "precip")
  }

  /** The position of the first largest attribution: what a stable descending sort puts
      first. */
  function FirstMax(xs: seq<Attribution>): (i: nat)
    requires |xs| > 0
    ensures i < |xs|
  {
    if |xs| == 1 then 0
    else
      var j := FirstMax(xs[1..]) + 1;
      if xs[0].impact >= xs[j].impact then 0 else j
  }

  /** `FirstMax` is a largest attribution, and every one before it is strictly smaller. */
  lemma {:induction false} FirstMaxSpec(xs: seq<Attribution>)
    requires |xs| > 0
    ensures forall k :: 0 <= k < |xs| ==> xs[k].impact <= xs[FirstMax(xs)].impact
    ensures forall k :: 0 <= k < FirstMax(xs) ==> xs[k].impact < xs[FirstMax(xs)].impact
  {
    if |xs| > 1 {
      FirstMaxSpec(xs[1..]);
      var j := FirstMax(xs[1..]) + 1;
      assert forall k :: 1 <= k < |xs| ==> xs[k] == xs[1..][k - 1];
    }
  }

  /** `sorted(group, key=impact, reverse=True)[:1]`. */
  function Top(group: seq<Attribution>): (r: seq<Attribution>)
    ensures |r| <= 1
  {
    if |group| == 0 then [] else [group[FirstMax(group)]]
  }

  /** One explanation entry; the direction is "up" only for a positive attribution. */
  function Explain(a: Attribution): (e: Explanation)
    ensures e.direction == "up" <==> a.impact > 0.0
    ensures e.direction == "down" <==> a.impact <= 0.0
    ensures e.feature == a.name && e.impact == a.impact && e.value == a.value
  {
    Explanation(a.name, a.impact, a.value, if a.impact > 0.0 then "up" else "down", Humanize(a.name, a.value))
  }

  function ExplainAll(xs: seq<Attribution>): (es: seq<Explanation>)
    ensures |es| == |xs| && forall k :: 0 <= k < |xs| ==> es[k] == Explain(xs[k])
  {
    seq(|xs|, k requires 0 <= k < |xs| => Explain(xs[k]))
  }

  predicate NotWeatherCode(a: Attribution)
  {
    !IsWeatherCode(a)
  }

  /** The selected items of one row: the weather-code features dropped, then the top
      feature of the snow/precipitation, wind and other groups, in that order. */
  function Selected(items: seq<Attribution>): seq<Attribution>
  {
    var kept := Filter(items, NotWeatherCode);
    Top(Filter(kept, InSnowGroup)) + Top(Filter(kept, InWindGroup)) + Top(Filter(kept, InOtherGroup))
  }

  /** The explanation of one row: one entry per selected item. */
  function ExplainRow(items: seq<Attribution>): seq<Explanation>
  {
    ExplainAll(Selected(items))
  }

  /** The top of a group is one of its members with no larger attribution in the group, and
      exists whenever the group is non-empty. */
  lemma TopSpec(group: seq<Attribution>)
    ensures |Top(group)| == 1 <==> |group| > 0
    ensures |Top(group)| == 1 ==> Top(group)[0] in group
    ensures |Top(group)| == 1 ==> forall a :: a in group ==> a.impact <= Top(group)[0].impact
  {
    if |group| > 0 {
      FirstMaxSpec(group);
    }
  }

  /** The items of a group of the kept features are items of the row that are not weather
      codes. */
  lemma TopOfKept(items: seq<Attribution>, p: Attribution -> bool)
    ensures forall a :: a in Top(Filter(Filter(items, NotWeatherCode), p)) ==> a in items && NotWeatherCode(a)
  {
    var kept := Filter(items, NotWeatherCode);
    FilterSpec(items, NotWeatherCode);
    FilterSpec(kept, p);
    TopSpec(Filter(kept, p));
  }

  /** Some item of the row that is not a weather code falls into group `p`. */
  predicate HasMember(items: seq<Attribution>, p: Attribution -> bool)
  {
    exists a :: a in items && NotWeatherCode(a) && p(a)
  }

  /** `a` is an item of group `p` of the row, not a weather code, and no item of that group
      has a larger attribution. */
  predicate Strongest(a: Attribution, items: seq<Attribution>, p: Attribution -> bool)
  {
    && a in items && NotWeatherCode(a) && p(a)
    && forall b :: b in items && NotWeatherCode(b) && p(b) ==> b.impact <= a.impact
  }

  /** The number of entries a group contributes: one when it has a member, else none. */
  function Contributes(items: seq<Attribution>, p: Attribution -> bool): (n: nat)
    ensures n <= 1
  {
    if HasMember(items, p) then 1 else 0
  }

  /** The top of one group of the kept features: a strongest member of the group when it has
      one, and nothing otherwise. */
  lemma TopOfGroup(items: seq<Attribution>, p: Attribution -> bool)
    ensures var t := Top(Filter(Filter(items, NotWeatherCode), p));
      && |t| == Contributes(items, p)
      && (|t| == 1 ==> Strongest(t[0], items, p))
  {
    var kept := Filter(items, NotWeatherCode);
    var group := Filter(kept, p);
    FilterSpec(items, NotWeatherCode);
    FilterSpec(kept, p);
    TopSpec(group);
    if HasMember(items, p) {
      var a :| a in items && NotWeatherCode(a) && p(a);
      assert a in group;
    }
  }

  /** At most three items are selected, each an item of the row that is not a weather
      code. */
  lemma SelectedItems(items: seq<Attribution>)
    ensures var sel := Selected(items);
      && |sel| <= 3
      && (forall k :: 0 <= k < |sel| ==> sel[k] in items && NotWeatherCode(sel[k]))
  {
    var kept := Filter(items, NotWeatherCode);
    var snow := Top(Filter(kept, InSnowGroup));
    var wind := Top(Filter(kept, InWindGroup));
    var other := Top(Filter(kept, InOtherGroup));
    TopOfKept(items, InSnowGroup);
    TopOfKept(items, InWindGroup);
    TopOfKept(items, InOtherGroup);
    var sel := Selected(items);
    assert sel == snow + wind + other;
    forall k | 0 <= k < |sel| ensures sel[k] in items && NotWeatherCode(sel[k]) {
      assert sel[k] in snow || sel[k] in wind || sel[k] in other;
    }
  }

  /** Where each part of a three-part concatenation begins. */
  lemma ConcatAt<T>(a: seq<T>, b: seq<T>, c: seq<T>)
    ensures |a + b + c| == |a| + |b| + |c|
    ensures |a| > 0 ==> (a + b + c)[0] == a[0]
    ensures |b| > 0 ==> (a + b + c)[|a|] == b[0]
    ensures |c| > 0 ==> (a + b + c)[|a| + |b|] == c[0]
  {
  }

  /** The selection holds one entry per non-empty group, in the order snow/precipitation,
      wind, other, each a strongest member of its group. */
  lemma SelectedSpec(items: seq<Attribution>)
    ensures var sel := Selected(items);
      var ns := Contributes(items, InSnowGroup);
      var nw := Contributes(items, InWindGroup);
      && |sel| == ns + nw + Contributes(items, InOtherGroup)
      && (HasMember(items, InSnowGroup) ==> Strongest(sel[0], items, InSnowGroup))
      && (HasMember(items, InWindGroup) ==> Strongest(sel[ns], items, InWindGroup))
      && (HasMember(items, InOtherGroup) ==> Strongest(sel[ns + nw], items, InOtherGroup))
  {
    var kept := Filter(items, NotWeatherCode);
    var snow := Top(Filter(kept, InSnowGroup));
    var wind := Top(Filter(kept, InWindGroup));
    var other := Top(Filter(kept, InOtherGroup));
    TopOfGroup(items, InSnowGroup);
    TopOfGroup(items, InWindGroup);
    TopOfGroup(items, InOtherGroup);
    ConcatAt(snow, wind, other);
  }

  /** A row's explanation has one entry per non-empty group, in the order
      snow/precipitation, wind, other, each the explanation of a strongest member of its
      group; no entry is of a weather-code feature and each has its direction by sign. */
  lemma ExplainRowSpec(items: seq<Attribution>)
    ensures var es := ExplainRow(items);
      && |es| <= 3
      && (forall k :: 0 <= k < |es| ==> !StartsWith(es[k].feature, "weather_code"))
      && (forall k :: 0 <= k < |es| ==> (es[k].direction == "up" <==> es[k].impact > 0.0))
    ensures var es := ExplainRow(items);
      var ns := Contributes(items, InSnowGroup);
      var nw := Contributes(items, InWindGroup);
      && |es| == ns + nw + Contributes(items, InOtherGroup)
      && (HasMember(items, InSnowGroup) ==>
            exists a :: Strongest(a, items, InSnowGroup) && es[0] == Explain(a))
      && (HasMember(items, InWindGroup) ==>
            exists a :: Strongest(a, items, InWindGroup) && es[ns] == Explain(a))
      && (HasMember(items, InOtherGroup) ==>
            exists a :: Strongest(a, items, InOtherGroup) && es[ns + nw] == Explain(a))
  {
    SelectedItems(items);
    SelectedSpec(items);
    var sel := Selected(items);
    var es := ExplainRow(items);
    var ns := Contributes(items, InSnowGroup);
    var nw := Contributes(items, InWindGroup);
    forall k | 0 <= k < |es| ensures !StartsWith(es[k].feature, "weather_code") {
      assert es[k] == Explain(sel[k]) && NotWeatherCode(sel[k]);
    }
    if HasMember(items, InSnowGroup) {
      assert es[0] == Explain(sel[0]);
    }
    if HasMember(items, InWindGroup) {
      assert es[ns] == Explain(sel[ns]);
    }
    if HasMember(items, InOtherGroup) {
      assert es[ns + nw] == Explain(sel[ns + nw]);
    }
  }

  /** The groups of a row, and which of them each kept feature falls into. */
  lemma GroupsSpec(items: seq<Attribution>)
    ensures var kept := Filter(items, NotWeatherCode);
      forall a :: a in kept <==> a in items && !IsWeatherCode(a)
    ensures var kept := Filter(items, NotWeatherCode);
      && (forall a :: a in Filter(kept, InSnowGroup) <==> a in kept && InSnowGroup(a))
      && (forall a :: a in Filter(kept, InWindGroup) <==> a in kept && InWindGroup(a))
      && (forall a :: a in Filter(kept, InOtherGroup) <==> a in kept && !InSnowGroup(a) && !InWindGroup(a))
  {
    var kept := Filter(items, NotWeatherCode);
    FilterSpec(items, NotWeatherCode);
    FilterSpec(kept, InSnowGroup);
    FilterSpec(kept, InWindGroup);
    FilterSpec(kept, InOtherGroup);
  }

  /** `data.loc[[i]]` then `.iloc[0]`: the first row labelled `i`. */
  function FirstRowAt(data: seq<(int, seq<Attribution>)>, i: int): (items: seq<Attribution>)
    requires exists j :: 0 <= j < |data| && data[j].0 == i
  {
    if data[0].0 == i then data[0].1 else FirstRowAt(data[1..], i)
  }

  /** `FirstRowAt` is the row at the first position labelled `i`. */
  lemma {:induction false} FirstRowAtSpec(data: seq<(int, seq<Attribution>)>, j: nat)
    requires j < |data| && forall k :: 0 <= k < j ==> data[k].0 != data[j].0
    ensures FirstRowAt(data, data[j].0) == data[j].1
  {
    if j > 0 {
      assert data[1..][j - 1] == data[j];
      FirstRowAtSpec(data[1..], j - 1);
    }
  }

  /** `GetExplanations`: for each row label of `data` (label, attributions), the
      explanation of the first row with that label. */
  method GetExplanations(data: seq<(int, seq<Attribution>)>) returns (explanations: map<int, seq<Explanation>>)
    ensures explanations.Keys == set j | 0 <= j < |data| :: data[j].0
    ensures forall i :: i in explanations ==> explanations[i] == ExplainRow(FirstRowAt(data, i))
  {
    explanations := map[];
    for j := 0 to |data|
      invariant explanations.Keys == set k | 0 <= k < j :: data[k].0
      invariant forall i :: i in explanations ==>
        (exists k :: 0 <= k < |data| && data[k].0 == i) && explanations[i] == ExplainRow(FirstRowAt(data, i))
    {
      var i := data[j].0;
      explanations := explanations[i := ExplainRow(FirstRowAt(data, i))];
    }
  }
}
