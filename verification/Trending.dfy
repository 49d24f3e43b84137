/** Ranking videos by trend: scores from floating-point products that may meet anything,
    and an order that the scores must not break. */
module Trending {
  import opened Common
  import TokenMerge

  // ------------------------------------------------------------------ floating point

  datatype Float = NaN | PosInf | NegInf | Fin(r: real)

  /** Rounding a real result into the format; overflow gives an infinity. */
  type Rounding = real -> Float

  /** Rounding keeps signs and never invents a NaN. */
  ghost predicate Sound(rd: Rounding) {
    && (forall r :: r >= 0.0 ==> NonNegative(rd(r)))
    && (forall r :: r <= 0.0 ==> rd(r).NegInf? || (rd(r).Fin? && rd(r).r <= 0.0))
  }

  predicate NonNegative(f: Float) { f.PosInf? || (f.Fin? && f.r >= 0.0) }

  predicate Less(a: Float, b: Float) {
    match a
    case NaN => false
    case PosInf => false
    case NegInf => b.PosInf? || b.Fin?
    case Fin(r) => b.PosInf? || (b.Fin? && r < b.r)
  }

  predicate Equal(a: Float, b: Float) { !a.NaN? && a == b }

  predicate LessOrEqual(a: Float, b: Float) { Less(a, b) || Equal(a, b) }

  function Add(rd: Rounding, a: Float, b: Float): Float {
    if a.NaN? || b.NaN? || (a.PosInf? && b.NegInf?) || (a.NegInf? && b.PosInf?) then NaN
    else if !a.Fin? then a
    else if !b.Fin? then b
    else rd(a.r + b.r)
  }

  /** -1, 0 or 1. */
  function Sign(a: Float): int {
    match a
    case PosInf => 1
    case NegInf => -1
    case NaN => 0
    case Fin(r) => if r > 0.0 then 1 else if r < 0.0 then -1 else 0
  }

  function Infinite(sign: int): Float { if sign > 0 then PosInf else if sign < 0 then NegInf else NaN }

  function Mul(rd: Rounding, a: Float, b: Float): Float {
    if a.NaN? || b.NaN? then NaN
    else if a.Fin? && b.Fin? then rd(a.r * b.r)
    else Infinite(Sign(a) * Sign(b))
  }

  function Div(rd: Rounding, a: Float, b: Float): Float {
    if a.NaN? || b.NaN? || (!a.Fin? && !b.Fin?) then NaN
    else if !b.Fin? then Fin(0.0)
    else if b.r == 0.0 then Infinite(Sign(a))
    else if a.Fin? then rd(a.r / b.r)
    else Infinite(Sign(a) * Sign(b))
  }

  function SanitiseFloat(f: Float): (s: Float)
    ensures s.Fin?
    ensures f.Fin? ==> s == f
  {
    if f.Fin? then f else Fin(0.0)
  }

  // ---------------------------------------------------------------------- the score

  /** publishedAt is an instant in nanoseconds; the other fields ride along in details. */
  datatype Video = Video(id: string, views: int, publishedAt: int, growth: Option<Float>,
                         viewsPerDay: Float, trendScore: Float, details: string)

  const HALF_LIFE_DAYS := 14.0
  const HOUR := 3_600_000_000_000

  function Hours(rd: Rounding, elapsed: int): Float {
    // Truncated towards zero, as the source's integer division is.
    var whole := if elapsed >= 0 then elapsed / HOUR else -(-elapsed / HOUR);
    var part := elapsed - whole * HOUR;
    Add(rd, rd(whole as real), Div(rd, rd(part as real), Fin(HOUR as real)))
  }

  function VideoAgeDays(rd: Rounding, publishedAt: int, generatedAt: int): Float {
    var hours := Hours(rd, TokenMerge.Sub(generatedAt, publishedAt));
    if LessOrEqual(hours, Fin(0.0)) then Fin(1.0)
    else
      var days := Div(rd, hours, Fin(24.0));
      if Less(days, Fin(1.0)) then Fin(1.0) else days
  }

  function SafeViewsPerDay(rd: Rounding, views: int, age: Float): Float {
    if views <= 0 || LessOrEqual(age, Fin(0.0)) then Fin(0.0) else Div(rd, rd(views as real), age)
  }

  function GrowthFactor(rd: Rounding, growth: Option<Float>): Float {
    if growth.None? then Fin(1.0)
    else
      var g := Add(rd, Fin(1.0), Div(rd, growth.value, Fin(100.0)));
      if Less(g, Fin(0.1)) then Fin(0.1) else g
  }

  function RecencyFactor(rd: Rounding, age: Float): Float {
    Div(rd, Fin(1.0), Add(rd, Fin(1.0), Div(rd, age, Fin(HALF_LIFE_DAYS))))
  }

  function ComputeTrendScore(rd: Rounding, v: Video, age: Float): Float {
    Mul(rd, Mul(rd, SafeViewsPerDay(rd, v.views, age), GrowthFactor(rd, v.growth)), RecencyFactor(rd, age))
  }

  function Scored(rd: Rounding, generatedAt: int, v: Video): Video {
    var age := VideoAgeDays(rd, v.publishedAt, generatedAt);
    v.(viewsPerDay := SanitiseFloat(SafeViewsPerDay(rd, v.views, age)),
       trendScore := SanitiseFloat(ComputeTrendScore(rd, v, age)))
  }

  function Sanitised(v: Video): Video {
    v.(viewsPerDay := SanitiseFloat(v.viewsPerDay), trendScore := SanitiseFloat(v.trendScore))
  }

  predicate GrowingLess(a: Video, b: Video) {
    if !Equal(a.trendScore, b.trendScore) then Less(b.trendScore, a.trendScore) else MostViewedLess(a, b)
  }

  predicate MostViewedLess(a: Video, b: Video) {
    if a.views != b.views then a.views > b.views
    else if a.publishedAt != b.publishedAt then a.publishedAt < b.publishedAt
    else StringLess(a.id, b.id)
  }

  // -------------------------------------------------------------------- the rankings

  function ScoredAll(rd: Rounding, generatedAt: int, videos: seq<Video>): (r: seq<Video>)
    ensures |r| == |videos|
  {
    seq(|videos|, i requires 0 <= i < |videos| => Scored(rd, generatedAt, videos[i]))
  }

  function SanitisedAll(videos: seq<Video>): (r: seq<Video>)
    ensures |r| == |videos|
  {
    seq(|videos|, i requires 0 <= i < |videos| => Sanitised(videos[i]))
  }

  /** A copy in an array of its own. */
  method CopyTopVideos(videos: array<Video>) returns (out: array<Video>)
    ensures fresh(out) && out[..] == videos[..]
  {
    if videos.Length == 0 {
      out := new Video[0];
    } else {
      out := new Video[videos.Length](i requires 0 <= i < videos.Length reads videos => videos[i]);
    }
    assert |out[..]| == |videos[..]| && forall i :: 0 <= i < videos.Length ==> out[..][i] == videos[..][i];
  }

  /** The library's stable sort, in place. */
  method SliceStable(a: array<Video>, less: (Video, Video) -> bool)
    modifies a
    ensures a[..] == SortBy(less, old(a[..]))
  {
    var sorted := SortBy(less, a[..]);
    forall i | 0 <= i < a.Length {
      a[i] := sorted[i];
    }
  }

  /** Scores a copy, element by element, and sorts it; the input keeps its contents. */
  method ScoreGrowing(videos: array<Video>, generatedAt: int, rd: Rounding) returns (out: array<Video>)
    ensures fresh(out) && out[..] == SortBy(GrowingLess, ScoredAll(rd, generatedAt, videos[..]))
  {
    hide SafeViewsPerDay, ComputeTrendScore, VideoAgeDays;
    out := CopyTopVideos(videos);
    assert out.Length == |out[..]| == videos.Length;
    assert forall k :: 0 <= k < out.Length ==> out[k] == out[..][k] == videos[..][k];
    for i := 0 to out.Length
      invariant forall k :: 0 <= k < i ==> out[k] == Scored(rd, generatedAt, videos[k])
      invariant forall k :: i <= k < out.Length ==> out[k] == videos[k]
    {
      var age := VideoAgeDays(rd, out[i].publishedAt, generatedAt);
      out[i] := out[i].(viewsPerDay := SafeViewsPerDay(rd, out[i].views, age));
      ScoreIgnoresResults(rd, videos[i], out[i], age);
      out[i] := out[i].(trendScore := ComputeTrendScore(rd, out[i], age));
      out[i] := out[i].(trendScore := SanitiseFloat(out[i].trendScore));
      out[i] := out[i].(viewsPerDay := SanitiseFloat(out[i].viewsPerDay));
    }
    assert out[..] == ScoredAll(rd, generatedAt, videos[..]);
    SliceStable(out, GrowingLess);
  }

  lemma ScoreIgnoresResults(rd: Rounding, v: Video, w: Video, age: Float)
    requires v.views == w.views && v.growth == w.growth
    ensures ComputeTrendScore(rd, v, age) == ComputeTrendScore(rd, w, age)
  {}

  method RankMostViewed(videos: array<Video>) returns (out: array<Video>)
    ensures fresh(out) && out[..] == SortBy(MostViewedLess, SanitisedAll(videos[..]))
  {
    out := CopyTopVideos(videos);
    assert out.Length == |out[..]| == videos.Length;
    assert forall k :: 0 <= k < out.Length ==> out[k] == out[..][k] == videos[..][k];
    for i := 0 to out.Length
      invariant forall k :: 0 <= k < i ==> out[k] == Sanitised(videos[k])
      invariant forall k :: i <= k < out.Length ==> out[k] == videos[k]
    {
      out[i] := out[i].(trendScore := SanitiseFloat(out[i].trendScore));
      out[i] := out[i].(viewsPerDay := SanitiseFloat(out[i].viewsPerDay));
    }
    assert out[..] == SanitisedAll(videos[..]);
    SliceStable(out, MostViewedLess);
  }

  // ------------------------------------------------------------- scores are harmless

  lemma AgeIsPositive(rd: Rounding, publishedAt: int, generatedAt: int)
    requires Sound(rd)
    ensures NonNegative(VideoAgeDays(rd, publishedAt, generatedAt)) && VideoAgeDays(rd, publishedAt, generatedAt) != Fin(0.0)
  {
  }

  predicate NotNegative(f: Float) { f.NaN? || NonNegative(f) }

  lemma ProductNotNegative(rd: Rounding, a: Float, b: Float)
    requires Sound(rd) && NotNegative(a) && NotNegative(b)
    ensures NotNegative(Mul(rd, a, b))
  {
    if a.Fin? && b.Fin? {
      assert a.r * b.r >= 0.0;
    }
  }

  lemma FactorsNotNegative(rd: Rounding, v: Video, age: Float)
    requires Sound(rd) && NonNegative(age) && age != Fin(0.0)
    ensures NotNegative(SafeViewsPerDay(rd, v.views, age)) && NotNegative(GrowthFactor(rd, v.growth))
    ensures NotNegative(RecencyFactor(rd, age))
  {
    if v.views > 0 {
      assert NonNegative(rd(v.views as real));
      QuotientNotNegative(rd, rd(v.views as real), age);
    }
    QuotientNotNegative(rd, age, Fin(HALF_LIFE_DAYS));
    SumNotNegative(rd, Fin(1.0), Div(rd, age, Fin(HALF_LIFE_DAYS)));
    QuotientNotNegative(rd, Fin(1.0), Add(rd, Fin(1.0), Div(rd, age, Fin(HALF_LIFE_DAYS))));
    hide Add, Div;
  }

  lemma QuotientNotNegative(rd: Rounding, a: Float, b: Float)
    requires Sound(rd) && NotNegative(a) && NotNegative(b)
    ensures NotNegative(Div(rd, a, b))
  {
    if a.Fin? && b.Fin? && b.r != 0.0 {
      assert a.r / b.r >= 0.0;
    }
  }

  lemma SumNotNegative(rd: Rounding, a: Float, b: Float)
    requires Sound(rd) && NotNegative(a) && NotNegative(b)
    ensures NotNegative(Add(rd, a, b))
  {}

  /** Whatever the growth, even a NaN or an infinity, the score comes out finite and not
      negative. */
  lemma ScoresAreFinite(rd: Rounding, generatedAt: int, v: Video)
    requires Sound(rd)
    ensures
      var w := Scored(rd, generatedAt, v);
      && w.trendScore.Fin? && w.trendScore.r >= 0.0 && w.viewsPerDay.Fin? && w.viewsPerDay.r >= 0.0
      && w.(trendScore := v.trendScore, viewsPerDay := v.viewsPerDay) == v
  {
    var age := VideoAgeDays(rd, v.publishedAt, generatedAt);
    AgeIsPositive(rd, v.publishedAt, generatedAt);
    FactorsNotNegative(rd, v, age);
    var views, growth := SafeViewsPerDay(rd, v.views, age), GrowthFactor(rd, v.growth);
    ProductNotNegative(rd, views, growth);
    ProductNotNegative(rd, Mul(rd, views, growth), RecencyFactor(rd, age));
    hide Mul, SafeViewsPerDay, GrowthFactor, RecencyFactor, VideoAgeDays;
  }

  /** What the other ranking does to a video: values that are no finite numbers become zero,
      and nothing else changes. */
  lemma SanitisedExactly(v: Video)
    ensures
      var w := Sanitised(v);
      && w.trendScore == (if v.trendScore.Fin? then v.trendScore else Fin(0.0))
      && w.viewsPerDay == (if v.viewsPerDay.Fin? then v.viewsPerDay else Fin(0.0))
      && w.(trendScore := v.trendScore, viewsPerDay := v.viewsPerDay) == v
  {}

  /** An undefined or unbounded growth leaves no score at all; an unbounded fall counts
      like the worst bounded one. */
  lemma ExtremeGrowth(rd: Rounding, generatedAt: int, v: Video)
    requires Sound(rd)
    ensures v.growth == Some(NaN) || v.growth == Some(PosInf) ==> Scored(rd, generatedAt, v).trendScore == Fin(0.0)
    ensures GrowthFactor(rd, Some(NegInf)) == Fin(0.1)
  {
    hide VideoAgeDays, SafeViewsPerDay, RecencyFactor;
  }

  // ------------------------------------------------------------- what the score means

  /** Arithmetic without rounding. */
  const EXACT: Rounding := r => Fin(r)

  /** The age in days, of which a video has at least one. */
  function Age(v: Video, generatedAt: int): real {
    var days := TokenMerge.Sub(generatedAt, v.publishedAt) as real / 86_400_000_000_000.0;
    if days < 1.0 then 1.0 else days
  }

  function Growth(percent: Option<real>): real {
    if percent.None? then 1.0 else if 1.0 + percent.value / 100.0 < 0.1 then 0.1 else 1.0 + percent.value / 100.0
  }

  lemma ExactHours(elapsed: int)
    ensures Hours(EXACT, elapsed) == Fin(elapsed as real / 3_600_000_000_000.0)
  {
    var whole := if elapsed >= 0 then elapsed / HOUR else -(-elapsed / HOUR);
    var part := elapsed - whole * HOUR;
    assert elapsed as real == whole as real * 3_600_000_000_000.0 + part as real;
  }

  lemma ExactAge(v: Video, generatedAt: int)
    ensures VideoAgeDays(EXACT, v.publishedAt, generatedAt) == Fin(Age(v, generatedAt))
  {
    var elapsed := TokenMerge.Sub(generatedAt, v.publishedAt);
    ExactHours(elapsed);
    hide Hours, TokenMerge.Sub;
    assert elapsed as real / 3_600_000_000_000.0 / 24.0 == elapsed as real / 86_400_000_000_000.0;
  }

  lemma ExactGrowth(percent: Option<real>)
    ensures GrowthFactor(EXACT, if percent.Some? then Some(Fin(percent.value)) else None) == Fin(Growth(percent))
  {}

  function PerDay(views: int, age: real): real
    requires age >= 1.0
  {
    if views <= 0 then 0.0 else views as real / age
  }

  /** One at no age at all, a half after fourteen days. */
  function Recency(age: real): real
    requires age >= 1.0
  {
    1.0 / (1.0 + age / 14.0)
  }

  function Trend(perDay: real, growth: real, recency: real): real { perDay * growth * recency }

  lemma ExactPerDay(views: int, age: real)
    requires age >= 1.0
    ensures SafeViewsPerDay(EXACT, views, Fin(age)) == Fin(PerDay(views, age))
  {}

  lemma ExactRecency(age: real)
    requires age >= 1.0
    ensures RecencyFactor(EXACT, Fin(age)) == Fin(Recency(age))
  {}

  lemma ExactTrend(a: real, b: real, c: real)
    ensures Mul(EXACT, Mul(EXACT, Fin(a), Fin(b)), Fin(c)) == Fin(Trend(a, b, c))
  {}

  /** Without rounding the score is the product of the views per day of age, the growth and
      the recency. */
  lemma ScoreExactly(v: Video, generatedAt: int, percent: Option<real>)
    requires v.growth == (if percent.Some? then Some(Fin(percent.value)) else None)
    ensures Age(v, generatedAt) >= 1.0
    ensures
      var w, perDay := Scored(EXACT, generatedAt, v), PerDay(v.views, Age(v, generatedAt));
      && w.viewsPerDay == Fin(perDay)
      && w.trendScore == Fin(Trend(perDay, Growth(percent), Recency(Age(v, generatedAt))))
  {
    var age := Age(v, generatedAt);
    ExactAge(v, generatedAt);
    ExactGrowth(percent);
    ExactPerDay(v.views, age);
    ExactRecency(age);
    ExactTrend(PerDay(v.views, age), Growth(percent), Recency(age));
    hide VideoAgeDays, Age, Growth, PerDay, Recency, Trend, GrowthFactor, SafeViewsPerDay, RecencyFactor, Mul;
  }

  // ------------------------------------------------------------------ the one ranking

  ghost predicate IdsDiffer(videos: seq<Video>) {
    forall i, j :: 0 <= i < j < |videos| ==> videos[i].id != videos[j].id
  }

  /** Scores that compare, and at most one video per id. */
  ghost predicate Rankable(dom: set<Video>) {
    (forall v :: v in dom ==> !v.trendScore.NaN?) && OnePerId(dom)
  }

  ghost predicate OnePerId(dom: set<Video>) {
    forall v, w :: v in dom && w in dom && v.id == w.id ==> v == w
  }

  lemma MostViewedIsStrict(a: Video, b: Video, c: Video)
    ensures !(MostViewedLess(a, b) && MostViewedLess(b, a))
    ensures a.id != b.id ==> MostViewedLess(a, b) || MostViewedLess(b, a)
    ensures MostViewedLess(a, b) && MostViewedLess(b, c) ==> MostViewedLess(a, c)
  {
    StringLessTotal(a.id, b.id);
    if StringLess(a.id, b.id) && StringLess(b.id, c.id) {
      StringLessTransitive(a.id, b.id, c.id);
    }
    hide StringLess;
  }

  /** Unless a score is a NaN both comparators are strict total orders. */
  lemma OrdersAreStrict(dom: set<Video>)
    requires Rankable(dom)
    ensures StrictOrderOn(GrowingLess, dom) && StrictOrderOn(MostViewedLess, dom)
  {
    hide MostViewedLess;
    forall a, b | a in dom && b in dom
      ensures !(GrowingLess(a, b) && GrowingLess(b, a)) && (a != b ==> GrowingLess(a, b) || GrowingLess(b, a))
      ensures !(MostViewedLess(a, b) && MostViewedLess(b, a)) && (a != b ==> MostViewedLess(a, b) || MostViewedLess(b, a))
    {
      MostViewedIsStrict(a, b, b);
    }
    forall a, b, c | a in dom && b in dom && c in dom
      ensures GrowingLess(a, b) && GrowingLess(b, c) ==> GrowingLess(a, c)
      ensures MostViewedLess(a, b) && MostViewedLess(b, c) ==> MostViewedLess(a, c)
    {
      MostViewedIsStrict(a, b, c);
    }
  }

  /** Without sanitising there would be no order: a NaN score is neither before nor after
      any other. */
  lemma NaNBreaksTheOrder(v: Video, w: Video)
    requires v.trendScore.NaN? && v.id != w.id
    ensures !GrowingLess(v, w) && !GrowingLess(w, v) && !StrictOrderOn(GrowingLess, {v, w})
  {
    assert v in {v, w} && w in {v, w};
  }

  /** Among two videos or more the comparator is a strict total order exactly when no
      score is a NaN; infinities would do no harm. */
  lemma OrderExactly(dom: set<Video>, v: Video, w: Video)
    requires OnePerId(dom) && v in dom && w in dom && v != w
    ensures StrictOrderOn(GrowingLess, dom) <==> forall x :: x in dom ==> !x.trendScore.NaN?
  {
    if forall x :: x in dom ==> !x.trendScore.NaN? {
      OrdersAreStrict(dom);
    } else {
      var x :| x in dom && x.trendScore.NaN?;
      var y := if x == v then w else v;
      NaNBreaksTheOrder(x, y);
    }
  }

  lemma ScoredIsRankable(rd: Rounding, generatedAt: int, videos: seq<Video>)
    requires Sound(rd) && IdsDiffer(videos)
    ensures Rankable(set v | v in ScoredAll(rd, generatedAt, videos))
    ensures Rankable(set v | v in SanitisedAll(videos))
  {
    hide Scored, Sound;
    var scored, sanitised := ScoredAll(rd, generatedAt, videos), SanitisedAll(videos);
    forall i | 0 <= i < |videos|
      ensures scored[i].trendScore.Fin? && scored[i].id == videos[i].id
      ensures sanitised[i].trendScore.Fin? && sanitised[i].id == videos[i].id
    {
      ScoresAreFinite(rd, generatedAt, videos[i]);
    }
    hide ScoredAll, SanitisedAll;
    ByIdRankable(scored, videos);
    ByIdRankable(sanitised, videos);
  }

  lemma ByIdRankable(results: seq<Video>, videos: seq<Video>)
    requires |results| == |videos| && IdsDiffer(videos)
    requires forall i :: 0 <= i < |videos| ==> results[i].trendScore.Fin? && results[i].id == videos[i].id
    ensures Rankable(set v | v in results)
  {}

  /** The growing list is the one sorted arrangement of the scored videos. */
  lemma OneRanking(rd: Rounding, generatedAt: int, videos: seq<Video>, other: seq<Video>)
    requires Sound(rd) && IdsDiffer(videos)
    requires multiset(other) == multiset(ScoredAll(rd, generatedAt, videos)) && SortedBy(GrowingLess, other)
    ensures other == SortBy(GrowingLess, ScoredAll(rd, generatedAt, videos))
  {
    var scored := ScoredAll(rd, generatedAt, videos);
    var dom := set v | v in scored;
    ScoredIsRankable(rd, generatedAt, videos);
    OrdersAreStrict(dom);
    SortBySorted(GrowingLess, scored, dom);
    SameElements(other, scored);
    hide ScoredAll, GrowingLess, SortedBy, StrictOrderOn, SortBy;
    assert Within(other, dom) by {
      forall i | 0 <= i < |other|
        ensures other[i] in dom
      {
        assert other[i] in other;
      }
    }
    SortedUnique(GrowingLess, other, SortBy(GrowingLess, scored), dom);
  }

  /** More views come first, then the earlier publication, then the lesser id. */
  ghost predicate MoreViewed(v: Video, w: Video) {
    v.views > w.views || (v.views == w.views && (v.publishedAt < w.publishedAt || (v.publishedAt == w.publishedAt && StringLess(v.id, w.id))))
  }

  /** The growing list descends by score, and among equal scores like the other one. */
  lemma GrowingDescends(rd: Rounding, generatedAt: int, videos: seq<Video>, i: nat, j: nat)
    requires Sound(rd) && IdsDiffer(videos) && i < j < |videos|
    ensures
      var r := SortBy(GrowingLess, ScoredAll(rd, generatedAt, videos));
      && r[i].trendScore.Fin? && r[j].trendScore.Fin?
      && (r[i].trendScore.r > r[j].trendScore.r || (r[i].trendScore == r[j].trendScore && MoreViewed(r[i], r[j])))
  {
    var scored := ScoredAll(rd, generatedAt, videos);
    ScoredIsRankable(rd, generatedAt, videos);
    ScoredFinite(rd, generatedAt, videos);
    RankedStrictly(GrowingLess, scored, i, j);
    var r := SortBy(GrowingLess, scored);
    SameElements(r, scored);
    assert r[i] in r && r[j] in r;
    hide SortBy, ScoredAll, Rankable, StringLess, Sound;
  }

  /** The other list descends by views. */
  lemma MostViewedDescends(videos: seq<Video>, i: nat, j: nat)
    requires IdsDiffer(videos) && i < j < |videos|
    ensures var r := SortBy(MostViewedLess, SanitisedAll(videos)); MoreViewed(r[i], r[j])
  {
    var sanitised := SanitisedAll(videos);
    assert forall k :: 0 <= k < |videos| ==> sanitised[k].trendScore.Fin? && sanitised[k].id == videos[k].id;
    ByIdRankable(sanitised, videos);
    RankedStrictly(MostViewedLess, sanitised, i, j);
    hide SortBy, SanitisedAll, Rankable, StringLess;
  }

  lemma ScoredFinite(rd: Rounding, generatedAt: int, videos: seq<Video>)
    requires Sound(rd)
    ensures forall v :: v in ScoredAll(rd, generatedAt, videos) ==> v.trendScore.Fin?
  {
    hide Scored, Sound;
    forall i | 0 <= i < |videos|
      ensures Scored(rd, generatedAt, videos[i]).trendScore.Fin?
    {
      ScoresAreFinite(rd, generatedAt, videos[i]);
    }
  }

  /** In a ranking of different videos every earlier one is strictly before a later one. */
  lemma RankedStrictly(less: (Video, Video) -> bool, videos: seq<Video>, i: nat, j: nat)
    requires less == GrowingLess || less == MostViewedLess
    requires Rankable(set v | v in videos) && IdsDiffer(videos) && i < j < |videos|
    ensures less(SortBy(less, videos)[i], SortBy(less, videos)[j])
  {
    var r, dom := SortBy(less, videos), set v | v in videos;
    OrdersAreStrict(dom);
    AllWithin(videos);
    SortBySorted(less, videos, dom);
    SortKeepsDistinct(less, videos);
    hide SortBy, Rankable, GrowingLess, MostViewedLess;
    assert r[i] in dom && r[j] in dom && r[i] != r[j];
  }

  lemma SameScores(rd: Rounding, generatedAt: int, a: seq<Video>, b: seq<Video>)
    requires multiset(a) == multiset(b)
    ensures multiset(ScoredAll(rd, generatedAt, a)) == multiset(ScoredAll(rd, generatedAt, b))
    ensures multiset(SanitisedAll(a)) == multiset(SanitisedAll(b))
  {
    hide Scored, Sanitised;
    var f := v => Scored(rd, generatedAt, v);
    assert Map(f, a) == ScoredAll(rd, generatedAt, a) && Map(f, b) == ScoredAll(rd, generatedAt, b);
    assert Map(Sanitised, a) == SanitisedAll(a) && Map(Sanitised, b) == SanitisedAll(b);
    MappedAlike(f, a, b);
    MappedAlike(Sanitised, a, b);
  }

  /** Neither ranking depends on the order in which the candidates came. */
  lemma RankingsIgnoreInputOrder(rd: Rounding, generatedAt: int, a: seq<Video>, b: seq<Video>)
    requires Sound(rd) && IdsDiffer(a) && multiset(a) == multiset(b)
    ensures SortBy(GrowingLess, ScoredAll(rd, generatedAt, a)) == SortBy(GrowingLess, ScoredAll(rd, generatedAt, b))
    ensures SortBy(MostViewedLess, SanitisedAll(a)) == SortBy(MostViewedLess, SanitisedAll(b))
  {
    var sa, sb := ScoredAll(rd, generatedAt, a), ScoredAll(rd, generatedAt, b);
    var ma, mb := SanitisedAll(a), SanitisedAll(b);
    ScoredIsRankable(rd, generatedAt, a);
    SameScores(rd, generatedAt, a, b);
    hide *;
    OrdersAreStrict(set v | v in sa);
    OrdersAreStrict(set v | v in ma);
    AllWithin(sa);
    AllWithin(ma);
    SortByOrderFree(GrowingLess, sa, sb, set v | v in sa);
    SortByOrderFree(MostViewedLess, ma, mb, set v | v in ma);
  }

  lemma AllWithin(videos: seq<Video>)
    ensures Within(videos, set v | v in videos)
  {}
}
