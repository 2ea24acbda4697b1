/** Outage bands on the latency charts (web/src/lib/bands.js): a sliding window of loss per timestamp,
    forgiven when the hops behind are healthy, then merged into bands. */
module Bands {
  import opened Wrappers

  const WINDOW_SIZE := 5

  // lost: the sample has no responder.
  datatype Sample = Sample(ttl: int, ts: int, lost: bool)

  type Index = map<int, map<int, bool>>

  datatype Color = Red | Orange | Yellow

  datatype Band = Band(start: int, end: int, color: Color)

  predicate Rising(ts: seq<int>) {
    forall i, j | 0 <= i < j < |ts| :: ts[i] < ts[j]
  }

  // ---- samples by timestamp and hop; the last of several wins ----

  function Filed(samples: seq<Sample>): Index {
    if samples == [] then map[]
    else
      var rest, s := Filed(samples[..|samples| - 1]), samples[|samples| - 1];
      rest[s.ts := (if s.ts in rest then rest[s.ts] else map[])[s.ttl := s.lost]]
  }

  method FileSamples(samples: seq<Sample>) returns (byTs: Index)
    ensures byTs == Filed(samples)
  {
    byTs := map[];
    for i := 0 to |samples|
      invariant byTs == Filed(samples[..i])
    {
      assert samples[..i + 1][..i] == samples[..i];
      var s := samples[i];
      var inner: map<int, bool> := if s.ts in byTs then byTs[s.ts] else map[];
      byTs := byTs[s.ts := inner[s.ttl := s.lost]];
    }
    assert samples[..|samples|] == samples;
  }

  /** What is filed is the last sample of each hop and timestamp. */
  lemma {:induction false} FiledIsLatest(samples: seq<Sample>, ts: int, ttl: int)
    ensures ts in Filed(samples) <==> exists i :: 0 <= i < |samples| && samples[i].ts == ts
    ensures ts in Filed(samples) && ttl in Filed(samples)[ts] ==>
              exists i :: 0 <= i < |samples| && samples[i] == Sample(ttl, ts, Filed(samples)[ts][ttl])
                && forall j | i < j < |samples| :: samples[j].ts != ts || samples[j].ttl != ttl
  {
    if samples != [] {
      var rest, s := samples[..|samples| - 1], samples[|samples| - 1];
      FiledIsLatest(rest, ts, ttl);
      assert samples[|samples| - 1] == s;
      if ts in Filed(rest) {
        var i :| 0 <= i < |rest| && rest[i].ts == ts;
        assert samples[i].ts == ts;
      }
      if ts in Filed(rest) && ttl in Filed(rest)[ts] && !(s.ts == ts && s.ttl == ttl) {
        var i :| 0 <= i < |rest| && rest[i] == Sample(ttl, ts, Filed(rest)[ts][ttl])
                 && forall j | i < j < |rest| :: rest[j].ts != ts || rest[j].ttl != ttl;
        assert samples[i] == Sample(ttl, ts, Filed(samples)[ts][ttl]);
      }
    }
  }

  // ---- loss in a window ----

  // Answers seen and answers missed.
  datatype Tally = Tally(total: nat, lost: nat) {
    function Add(o: Option<bool>): Tally {
      if o.None? then this else Tally(total + 1, lost + if o.value then 1 else 0)
    }

    function Loss(): real
      requires total > 0
    {
      lost as real / total as real
    }
  }

  function Seen(m: map<int, bool>, ttl: int): Option<bool> {
    if ttl in m then Some(m[ttl]) else None
  }

  function TallyHops(m: map<int, bool>, ttls: seq<int>, t: Tally): Tally {
    if ttls == [] then t else TallyHops(m, ttls[..|ttls| - 1], t).Add(Seen(m, ttls[|ttls| - 1]))
  }

  predicate Indexed(byTs: Index, ts: seq<int>) {
    forall i | 0 <= i < |ts| :: ts[i] in byTs
  }

  // Over timestamps [lo, hi).
  function Window(byTs: Index, ts: seq<int>, ttls: seq<int>, lo: nat, hi: nat): Tally
    requires Indexed(byTs, ts) && lo <= hi <= |ts|
    decreases hi
  {
    if lo == hi then Tally(0, 0) else TallyHops(byTs[ts[hi - 1]], ttls, Window(byTs, ts, ttls, lo, hi - 1))
  }

  function Behind(hops: seq<int>, selected: int): seq<int> {
    if hops == [] then []
    else Behind(hops[..|hops| - 1], selected) + if hops[|hops| - 1] > selected then [hops[|hops| - 1]] else []
  }

  function Shade(loss: real): Option<Color> {
    if loss >= 0.7 then Some(Red) else if loss >= 0.4 then Some(Orange) else if loss >= 0.2 then Some(Yellow) else None
  }

  // Loss that the hops behind do not share is rate limiting, not loss.
  function Judge(sel: Tally, behind: Tally, anyBehind: bool): Option<Color> {
    if sel.total == 0 then None
    else
      var loss := sel.Loss();
      var lossBehind := if behind.total > 0 then behind.Loss() else loss;
      Shade(if anyBehind && lossBehind < loss * 0.5 then 0.0 else loss)
  }

  function ColorAt(byTs: Index, ts: seq<int>, selected: int, behind: seq<int>, i: nat): Option<Color>
    requires Indexed(byTs, ts) && i < |ts|
  {
    var lo := if i + 1 >= WINDOW_SIZE then i + 1 - WINDOW_SIZE else 0;
    Judge(Window(byTs, ts, [selected], lo, i + 1), Window(byTs, ts, behind, lo, i + 1), behind != [])
  }

  method Classify(byTs: Index, ts: seq<int>, selected: int, behind: seq<int>, i: nat) returns (color: Option<Color>)
    requires Indexed(byTs, ts) && i < |ts|
    ensures color == ColorAt(byTs, ts, selected, behind, i)
  {
    var lo := if i - WINDOW_SIZE + 1 > 0 then i - WINDOW_SIZE + 1 else 0;
    var sel, ds := Tally(0, 0), Tally(0, 0);
    for j := lo to i + 1
      invariant sel == Window(byTs, ts, [selected], lo, j) && ds == Window(byTs, ts, behind, lo, j)
    {
      var m := byTs[ts[j]];
      OneHop(m, selected, sel);
      sel := sel.Add(Seen(m, selected));
      ghost var before := ds;
      for k := 0 to |behind|
        invariant ds == TallyHops(m, behind[..k], before)
      {
        assert behind[..k + 1][..k] == behind[..k];
        ds := ds.Add(Seen(m, behind[k]));
      }
      assert behind[..|behind|] == behind;
    }
    color := Judge(sel, ds, behind != []);
  }

  lemma OneHop(m: map<int, bool>, ttl: int, t: Tally)
    ensures TallyHops(m, [ttl], t) == t.Add(Seen(m, ttl))
  {
    assert [ttl][..0] == [];
  }

  lemma LossRange(t: Tally)
    requires t.total > 0 && t.lost <= t.total
    ensures 0.0 <= t.Loss() <= 1.0
    ensures t.Loss() == 0.0 <==> t.lost == 0
    ensures t.lost == t.total ==> t.Loss() == 1.0
  {
  }

  lemma Attribution(sel: Tally, behind: Tally)
    requires sel.lost <= sel.total
    ensures behind.total > 0 && behind.lost == 0 ==> Judge(sel, behind, true).None?
    ensures sel.total > 0 && behind.total == 0 ==> Judge(sel, behind, true) == Shade(sel.Loss())
  {
    if sel.total > 0 {
      LossRange(sel);
      if behind.total > 0 && behind.lost == 0 {
        LossRange(behind);
      }
    }
  }

  predicate Heard(m: map<int, bool>, ttls: seq<int>) {
    exists k :: 0 <= k < |ttls| && ttls[k] in m
  }

  predicate Missed(m: map<int, bool>, ttls: seq<int>) {
    exists k :: 0 <= k < |ttls| && ttls[k] in m && m[ttls[k]]
  }

  lemma {:induction false} HopsMeaning(m: map<int, bool>, ttls: seq<int>, t: Tally)
    requires t.lost <= t.total
    ensures var r := TallyHops(m, ttls, t);
            && r.lost <= r.total && r.lost >= t.lost && r.total >= t.total
            && (r.total == t.total <==> !Heard(m, ttls)) && (r.lost == t.lost <==> !Missed(m, ttls))
  {
    if ttls != [] {
      var rest, last := ttls[..|ttls| - 1], ttls[|ttls| - 1];
      HopsMeaning(m, rest, t);
      assert Heard(m, ttls) <==> Heard(m, rest) || last in m by {
        if Heard(m, rest) {
          var k :| 0 <= k < |rest| && rest[k] in m;
          assert ttls[k] in m;
        }
        if last in m {
          assert ttls[|ttls| - 1] in m;
        }
      }
      assert Missed(m, ttls) <==> Missed(m, rest) || (last in m && m[last]) by {
        if Missed(m, rest) {
          var k :| 0 <= k < |rest| && rest[k] in m && m[rest[k]];
          assert ttls[k] in m && m[ttls[k]];
        }
        if last in m && m[last] {
          assert ttls[|ttls| - 1] in m;
        }
      }
    }
  }

  /** A window counts something exactly when one of its hops is heard of in it, and loss exactly when
      one of them went unanswered in it. */
  lemma {:induction false} WindowMeaning(byTs: Index, ts: seq<int>, ttls: seq<int>, lo: nat, hi: nat)
    requires Indexed(byTs, ts) && lo <= hi <= |ts|
    ensures var t := Window(byTs, ts, ttls, lo, hi);
            && t.lost <= t.total
            && (t.total > 0 <==> exists j :: lo <= j < hi && Heard(byTs[ts[j]], ttls))
            && (t.lost > 0 <==> exists j :: lo <= j < hi && Missed(byTs[ts[j]], ttls))
    decreases hi
  {
    if lo < hi {
      hide Heard, Missed, TallyHops;
      WindowMeaning(byTs, ts, ttls, lo, hi - 1);
      HopsMeaning(byTs[ts[hi - 1]], ttls, Window(byTs, ts, ttls, lo, hi - 1));
    }
  }

  /** However much a hop loses, it is not shaded while some hop behind it is heard from in the window
      and none behind it misses anything. */
  lemma RateLimitingIsForgiven(byTs: Index, ts: seq<int>, selected: int, behind: seq<int>, i: nat)
    requires Indexed(byTs, ts) && i < |ts|
    requires exists j :: 0 <= j && i - WINDOW_SIZE < j <= i && Heard(byTs[ts[j]], behind)
    requires forall j | 0 <= j && i - WINDOW_SIZE < j <= i :: !Missed(byTs[ts[j]], behind)
    ensures ColorAt(byTs, ts, selected, behind, i).None?
  {
    var lo := if i + 1 >= WINDOW_SIZE then i + 1 - WINDOW_SIZE else 0;
    WindowMeaning(byTs, ts, [selected], lo, i + 1);
    WindowMeaning(byTs, ts, behind, lo, i + 1);
    Attribution(Window(byTs, ts, [selected], lo, i + 1), Window(byTs, ts, behind, lo, i + 1));
  }

  /** The last hop, with nothing behind it, is judged by its own loss: shaded red when it answered
      nothing all window long, not at all when it missed nothing. */
  lemma TargetIsJudgedAlone(byTs: Index, ts: seq<int>, selected: int, i: nat)
    requires Indexed(byTs, ts) && i < |ts|
    requires exists j :: 0 <= j && i - WINDOW_SIZE < j <= i && Heard(byTs[ts[j]], [selected])
    ensures var lo := if i + 1 >= WINDOW_SIZE then i + 1 - WINDOW_SIZE else 0;
            var t := Window(byTs, ts, [selected], lo, i + 1);
            && t.total > 0 && ColorAt(byTs, ts, selected, [], i) == Shade(t.Loss())
            && (t.lost == t.total ==> ColorAt(byTs, ts, selected, [], i) == Some(Red))
            && ((forall j | 0 <= j && i - WINDOW_SIZE < j <= i :: !Missed(byTs[ts[j]], [selected])) ==>
                  ColorAt(byTs, ts, selected, [], i).None?)
  {
    var lo := if i + 1 >= WINDOW_SIZE then i + 1 - WINDOW_SIZE else 0;
    var t := Window(byTs, ts, [selected], lo, i + 1);
    WindowMeaning(byTs, ts, [selected], lo, i + 1);
    WindowMeaning(byTs, ts, [], lo, i + 1);
    LossRange(t);
    hide Window, Heard, Missed;
    assert ColorAt(byTs, ts, selected, [], i) == Shade(t.Loss());
  }

  // ---- on the chart's own inputs ----

  /** The hops behind are those of the path beyond the selected one, each as often as the path lists it. */
  lemma {:induction false} BehindMeaning(hops: seq<int>, selected: int, h: int)
    ensures multiset(Behind(hops, selected))[h] == if h > selected then multiset(hops)[h] else 0
    ensures Behind(hops, selected) == [] <==> forall i | 0 <= i < |hops| :: hops[i] <= selected
  {
    if hops != [] {
      var n := |hops| - 1;
      BehindMeaning(hops[..n], selected, h);
      assert hops == hops[..n] + [hops[n]];
      assert multiset(hops)[h] == multiset(hops[..n])[h] + if hops[n] == h then 1 else 0;
      if hops[n] <= selected {
        assert Behind(hops, selected) == Behind(hops[..n], selected);
      }
    }
  }

  lemma ShareAtLeast(lost: nat, total: nat, tenths: nat)
    requires total > 0
    ensures lost as real / total as real >= tenths as real / 10.0 <==> 10 * lost >= tenths * total
  {
    var x, n := lost as real / total as real, total as real;
    assert x * n == lost as real;
    if x >= tenths as real / 10.0 {
      TimesKeeps(tenths as real / 10.0, x, n);
    } else {
      TimesKeepsStrict(x, tenths as real / 10.0, n);
    }
  }

  lemma TimesKeeps(a: real, b: real, n: real)
    requires a <= b && n > 0.0
    ensures a * n <= b * n
  {
  }

  lemma TimesKeepsStrict(a: real, b: real, n: real)
    requires a < b && n > 0.0
    ensures a * n < b * n
  {
  }

  lemma HalfShare(a: nat, m: nat, b: nat, n: nat)
    requires m > 0 && n > 0
    ensures a as real / m as real < b as real / n as real * 0.5 <==> 2 * a * n < b * m
  {
    var x, y, p := a as real / m as real, b as real / n as real, m as real * n as real;
    assert x * m as real == a as real && y * n as real == b as real;
    assert x * p == a as real * n as real && y * 0.5 * p == b as real * m as real * 0.5;
    if x < y * 0.5 {
      TimesKeepsStrict(x, y * 0.5, p);
    } else {
      TimesKeeps(y * 0.5, x, p);
    }
  }

  // The share behind is less than half of the hop's own.
  predicate Excused(sel: Tally, behind: Tally) {
    behind.total > 0 && 2 * behind.lost * sel.total < sel.lost * behind.total
  }

  /** A hop is shaded by its share of missed answers, red from seven tenths, orange from four and yellow from
      two, unless there are hops behind it whose share is less than half of its own. */
  lemma JudgedByCounts(sel: Tally, behind: Tally, anyBehind: bool)
    requires sel.total > 0
    ensures Judge(sel, behind, anyBehind) ==
            if anyBehind && Excused(sel, behind) then None
            else if 10 * sel.lost >= 7 * sel.total then Some(Red)
            else if 10 * sel.lost >= 4 * sel.total then Some(Orange)
            else if 10 * sel.lost >= 2 * sel.total then Some(Yellow) else None
  {
    ShareAtLeast(sel.lost, sel.total, 7);
    ShareAtLeast(sel.lost, sel.total, 4);
    ShareAtLeast(sel.lost, sel.total, 2);
    if behind.total > 0 {
      HalfShare(behind.lost, behind.total, sel.lost, sel.total);
      assert 2 * behind.lost * sel.total < sel.lost * behind.total <==> Excused(sel, behind);
    }
    ShareNotNegative(sel);
  }

  lemma ShareNotNegative(t: Tally)
    requires t.total > 0
    ensures t.Loss() >= 0.0
  {
  }

  /** Nothing is painted at a timestamp for a hop of a path while some hop beyond it is heard from in the
      window and none beyond it misses anything. */
  lemma HealthyPathIsForgiven(samples: seq<Sample>, ts: seq<int>, selected: int, hops: seq<int>, i: nat)
    requires Indexed(Filed(samples), ts) && i < |ts|
    requires exists j, k :: 0 <= j && i - 5 < j <= i && 0 <= k < |hops|
                         && hops[k] > selected && hops[k] in Filed(samples)[ts[j]]
    requires forall j, k | 0 <= j && i - 5 < j <= i && 0 <= k < |hops|
                           && hops[k] > selected && hops[k] in Filed(samples)[ts[j]] :: !Filed(samples)[ts[j]][hops[k]]
    ensures ColorAt(Filed(samples), ts, selected, Behind(hops, selected), i).None?
  {
    var byTs, behind := Filed(samples), Behind(hops, selected);
    var j, k :| 0 <= j && i - WINDOW_SIZE < j <= i && 0 <= k < |hops| && hops[k] > selected && hops[k] in byTs[ts[j]];
    hide Filed;
    BehindMeaning(hops, selected, hops[k]);
    assert hops[k] in multiset(hops) && hops[k] in multiset(behind);
    var m :| 0 <= m < |behind| && behind[m] == hops[k];
    assert Heard(byTs[ts[j]], behind);
    forall g | 0 <= g && i - WINDOW_SIZE < g <= i
      ensures !Missed(byTs[ts[g]], behind)
    {
      forall n | 0 <= n < |behind| && behind[n] in byTs[ts[g]]
        ensures !byTs[ts[g]][behind[n]]
      {
        BehindMeaning(hops, selected, behind[n]);
        assert behind[n] in multiset(behind) && behind[n] in multiset(hops);
        var l :| 0 <= l < |hops| && hops[l] == behind[n];
      }
    }
    hide Behind, Heard, Missed;
    RateLimitingIsForgiven(byTs, ts, selected, behind, i);
  }

  // ---- merging ----

  // One timestamp more: it extends the last band, opens another, or has no color.
  function MergeOne(ts: seq<int>, colors: seq<Option<Color>>, n: nat, prior: seq<Band>): seq<Band>
    requires 0 < n <= |ts| == |colors|
  {
    if colors[n - 1].None? then prior
    else if n >= 2 && prior != [] && colors[n - 2] == colors[n - 1] then
      prior[|prior| - 1 := prior[|prior| - 1].(end := ts[n - 1])]
    else prior + [Band(ts[n - 1], ts[n - 1], colors[n - 1].value)]
  }

  // The bands of the first n timestamps, the open one last.
  function Merged(ts: seq<int>, colors: seq<Option<Color>>, n: nat): seq<Band>
    requires n <= |ts| == |colors|
  {
    if n == 0 then [] else MergeOne(ts, colors, n, Merged(ts, colors, n - 1))
  }

  // A longest run of one color among the first n timestamps.
  predicate IsRun(ts: seq<int>, colors: seq<Option<Color>>, n: nat, b: Band, lo: nat, hi: nat)
    requires n <= |ts| == |colors|
  {
    && lo <= hi < n && b.start == ts[lo] && b.end == ts[hi]
    && (forall i | lo <= i <= hi :: colors[i] == Some(b.color))
    && (lo > 0 ==> colors[lo - 1] != Some(b.color))
    && (hi + 1 < n ==> colors[hi + 1] != Some(b.color))
  }

  // spans[k] is where band k lies.
  predicate Laid(ts: seq<int>, colors: seq<Option<Color>>, n: nat, bands: seq<Band>, spans: seq<(nat, nat)>)
    requires n <= |ts| == |colors|
  {
    && |spans| == |bands|
    && (forall k | 0 <= k < |bands| :: IsRun(ts, colors, n, bands[k], spans[k].0, spans[k].1))
    && (forall j, k | 0 <= j < k < |spans| :: spans[j].1 < spans[k].0)
    && (n > 0 && colors[n - 1].Some? ==> bands != [] && spans[|spans| - 1].1 == n - 1)
  }

  predicate Spanned(spans: seq<(nat, nat)>, i: nat) {
    exists k :: 0 <= k < |spans| && spans[k].0 <= i <= spans[k].1
  }

  // What no span covers has no color.
  predicate Covered(colors: seq<Option<Color>>, n: nat, spans: seq<(nat, nat)>)
    requires n <= |colors|
  {
    forall i | 0 <= i < n && colors[i].Some? :: Spanned(spans, i)
  }

  lemma {:induction false} MergedIsLaid(ts: seq<int>, colors: seq<Option<Color>>, n: nat)
    returns (spans: seq<(nat, nat)>)
    requires n <= |ts| == |colors|
    ensures Laid(ts, colors, n, Merged(ts, colors, n), spans) && Covered(colors, n, spans)
  {
    if n == 0 {
      spans := [];
    } else {
      var before := MergedIsLaid(ts, colors, n - 1);
      spans := LayOne(ts, colors, n, Merged(ts, colors, n - 1), before);
    }
  }

  lemma LayOne(ts: seq<int>, colors: seq<Option<Color>>, n: nat, prior: seq<Band>, before: seq<(nat, nat)>)
    returns (spans: seq<(nat, nat)>)
    requires 0 < n <= |ts| == |colors|
    requires Laid(ts, colors, n - 1, prior, before) && Covered(colors, n - 1, before)
    ensures Laid(ts, colors, n, MergeOne(ts, colors, n, prior), spans) && Covered(colors, n, spans)
  {
    if colors[n - 1].None? {
      hide IsRun, Spanned, Covered;
      spans := before;
      AllStay(ts, colors, n, prior, before);
      CoversOneMore(colors, n, before, spans);
    } else if n >= 2 && prior != [] && colors[n - 2] == colors[n - 1] {
      hide Laid, Covered;
      spans := Extend(ts, colors, n, prior, before);
    } else {
      hide Covered, IsRun;
      spans := Open(ts, colors, n, prior, before);
    }
  }

  lemma Extend(ts: seq<int>, colors: seq<Option<Color>>, n: nat, prior: seq<Band>, before: seq<(nat, nat)>)
    returns (spans: seq<(nat, nat)>)
    requires 2 <= n <= |ts| == |colors| && prior != [] && colors[n - 1].Some? && colors[n - 2] == colors[n - 1]
    requires Laid(ts, colors, n - 1, prior, before) && Covered(colors, n - 1, before)
    ensures Laid(ts, colors, n, prior[|prior| - 1 := prior[|prior| - 1].(end := ts[n - 1])], spans)
    ensures Covered(colors, n, spans)
  {
    hide IsRun, Spanned, Covered;
    var last := |before| - 1;
    spans := before[last := (before[last].0, n - 1)];
    EarlierStay(ts, colors, n, prior, before);
    RunGrows(ts, colors, n, prior[last], before[last].0);
    CoversOneMore(colors, n, before, spans);
  }

  lemma Open(ts: seq<int>, colors: seq<Option<Color>>, n: nat, prior: seq<Band>, before: seq<(nat, nat)>)
    returns (spans: seq<(nat, nat)>)
    requires 0 < n <= |ts| == |colors| && colors[n - 1].Some? && (n >= 2 ==> colors[n - 2] != colors[n - 1])
    requires Laid(ts, colors, n - 1, prior, before) && Covered(colors, n - 1, before)
    ensures Laid(ts, colors, n, prior + [Band(ts[n - 1], ts[n - 1], colors[n - 1].value)], spans)
    ensures Covered(colors, n, spans)
  {
    hide IsRun, Spanned, Covered;
    var last := |before| - 1;
    spans := before + [(n - 1, n - 1)];
    EarlierStay(ts, colors, n, prior, before);
    if prior != [] {
      LastStays(ts, colors, n, prior[last], before[last].0, before[last].1);
    }
    NewRun(ts, colors, n);
    CoversOneMore(colors, n, before, spans);
  }

  lemma AllStay(ts: seq<int>, colors: seq<Option<Color>>, n: nat, prior: seq<Band>, before: seq<(nat, nat)>)
    requires 0 < n <= |ts| == |colors| && Laid(ts, colors, n - 1, prior, before) && colors[n - 1].None?
    ensures Laid(ts, colors, n, prior, before)
  {
    hide IsRun;
    forall k | 0 <= k < |prior|
      ensures IsRun(ts, colors, n, prior[k], before[k].0, before[k].1)
    {
      RunStays(ts, colors, n, prior[k], before[k].0, before[k].1);
    }
  }

  lemma RunStays(ts: seq<int>, colors: seq<Option<Color>>, n: nat, b: Band, lo: nat, hi: nat)
    requires 0 < n <= |ts| == |colors| && IsRun(ts, colors, n - 1, b, lo, hi)
    requires hi == n - 2 ==> colors[n - 1] != Some(b.color)
    ensures IsRun(ts, colors, n, b, lo, hi)
  {
  }

  // Every band but the last is already closed.
  lemma EarlierStay(ts: seq<int>, colors: seq<Option<Color>>, n: nat, prior: seq<Band>, before: seq<(nat, nat)>)
    requires 0 < n <= |ts| == |colors| && Laid(ts, colors, n - 1, prior, before)
    ensures forall k | 0 <= k < |prior| - 1 :: IsRun(ts, colors, n, prior[k], before[k].0, before[k].1)
    ensures forall k | 0 <= k < |prior| :: before[k].0 <= before[k].1 < n - 1
  {
  }

  lemma RunGrows(ts: seq<int>, colors: seq<Option<Color>>, n: nat, b: Band, lo: nat)
    requires 2 <= n <= |ts| == |colors| && IsRun(ts, colors, n - 1, b, lo, n - 2) && colors[n - 2] == colors[n - 1]
    ensures IsRun(ts, colors, n, b.(end := ts[n - 1]), lo, n - 1)
  {
  }

  lemma LastStays(ts: seq<int>, colors: seq<Option<Color>>, n: nat, b: Band, lo: nat, hi: nat)
    requires 2 <= n <= |ts| == |colors| && IsRun(ts, colors, n - 1, b, lo, hi) && colors[n - 2] != colors[n - 1]
    ensures IsRun(ts, colors, n, b, lo, hi)
  {
  }

  lemma NewRun(ts: seq<int>, colors: seq<Option<Color>>, n: nat)
    requires 0 < n <= |ts| == |colors| && colors[n - 1].Some? && (n >= 2 ==> colors[n - 2] != colors[n - 1])
    ensures IsRun(ts, colors, n, Band(ts[n - 1], ts[n - 1], colors[n - 1].value), n - 1, n - 1)
  {
  }

  lemma StillSpanned(before: seq<(nat, nat)>, after: seq<(nat, nat)>, i: nat)
    requires Spanned(before, i) && |before| <= |after|
    requires forall k | 0 <= k < |before| :: after[k].0 == before[k].0 && before[k].1 <= after[k].1
    ensures Spanned(after, i)
  {
    var k :| 0 <= k < |before| && before[k].0 <= i <= before[k].1;
    assert after[k].0 <= i <= after[k].1;
  }

  lemma CoversOneMore(colors: seq<Option<Color>>, n: nat, before: seq<(nat, nat)>, after: seq<(nat, nat)>)
    requires 0 < n <= |colors| && Covered(colors, n - 1, before)
    requires |before| <= |after|
    requires forall k | 0 <= k < |before| :: after[k].0 == before[k].0 && before[k].1 <= after[k].1
    requires colors[n - 1].Some? ==> after != [] && after[|after| - 1].0 <= n - 1 <= after[|after| - 1].1
    ensures Covered(colors, n, after)
  {
    forall i | 0 <= i < n && colors[i].Some?
      ensures Spanned(after, i)
    {
      if i < n - 1 {
        StillSpanned(before, after, i);
      }
    }
  }

  lemma WhichSpan(colors: seq<Option<Color>>, n: nat, spans: seq<(nat, nat)>, i: nat) returns (k: nat)
    requires i < n <= |colors| && colors[i].Some? && Covered(colors, n, spans)
    ensures k < |spans| && spans[k].0 <= i <= spans[k].1
  {
    assert Spanned(spans, i);
    k :| 0 <= k < |spans| && spans[k].0 <= i <= spans[k].1;
  }

  // What a chart shows at t.
  predicate Painted(bands: seq<Band>, t: int, c: Color) {
    exists k :: 0 <= k < |bands| && bands[k].color == c && bands[k].start <= t <= bands[k].end
  }

  /** Painting the bands back shows every timestamp in exactly the color it was classified as. */
  lemma PaintedBack(ts: seq<int>, colors: seq<Option<Color>>, i: nat, c: Color)
    requires |ts| == |colors| && Rising(ts) && i < |ts|
    ensures var bands := Merged(ts, colors, |ts|);
            colors[i] == Some(c) <==> Painted(bands, ts[i], c)
  {
    hide Merged, Covered, Spanned;
    var bands := Merged(ts, colors, |ts|);
    var spans := MergedIsLaid(ts, colors, |ts|);
    if colors[i] == Some(c) {
      var k := WhichSpan(colors, |ts|, spans, i);
      assert IsRun(ts, colors, |ts|, bands[k], spans[k].0, spans[k].1);
      assert bands[k].color == c && bands[k].start <= ts[i] <= bands[k].end;
    }
    if Painted(bands, ts[i], c) {
      var k :| 0 <= k < |bands| && bands[k].color == c && bands[k].start <= ts[i] <= bands[k].end;
      assert IsRun(ts, colors, |ts|, bands[k], spans[k].0, spans[k].1);
    }
  }

  /** Bands are in time order, do not touch, and are as long as they can be: two neighbors of one color
      have an uncolored or differently colored timestamp between them. */
  lemma BandsAreMaximal(ts: seq<int>, colors: seq<Option<Color>>, k: nat)
    requires |ts| == |colors| && Rising(ts) && k + 1 < |Merged(ts, colors, |ts|)|
    ensures var bands := Merged(ts, colors, |ts|);
            && bands[k].start <= bands[k].end < bands[k + 1].start
            && (bands[k].color == bands[k + 1].color ==>
                  exists i :: 0 <= i < |ts| && bands[k].end < ts[i] < bands[k + 1].start
                           && colors[i] != Some(bands[k].color))
  {
    hide Merged;
    var bands := Merged(ts, colors, |ts|);
    var spans := MergedIsLaid(ts, colors, |ts|);
    assert IsRun(ts, colors, |ts|, bands[k], spans[k].0, spans[k].1);
    assert IsRun(ts, colors, |ts|, bands[k + 1], spans[k + 1].0, spans[k + 1].1);
    var i := spans[k].1 + 1;
    if bands[k].color == bands[k + 1].color {
      assert colors[i] != Some(bands[k].color);
      assert bands[k].end < ts[i] < bands[k + 1].start;
    }
  }

  // tsList is the index's timestamps as sorting leaves them.
  method ComputeBands(samples: seq<Sample>, selected: Option<int>, pathHops: seq<int>, tsList: seq<int>)
    returns (result: seq<Band>)
    requires Rising(tsList) && forall t :: t in tsList <==> t in Filed(samples)
    ensures selected.None? || samples == [] ==> result == []
    ensures selected.Some? && samples != [] ==>
              Indexed(Filed(samples), tsList) &&
              result == Merged(tsList,
                               seq(|tsList|, i requires 0 <= i < |tsList| =>
                                 ColorAt(Filed(samples), tsList, selected.value, Behind(pathHops, selected.value), i)),
                               |tsList|)
  {
    result := [];
    if |samples| == 0 || selected.None? {
      return;
    }
    var downstream: seq<int> := [];
    for h := 0 to |pathHops|
      invariant downstream == Behind(pathHops[..h], selected.value)
    {
      assert pathHops[..h + 1][..h] == pathHops[..h];
      if pathHops[h] > selected.value {
        downstream := downstream + [pathHops[h]];
      }
    }
    assert pathHops[..|pathHops|] == pathHops;
    var byTs := FileSamples(samples);
    assert Indexed(byTs, tsList) by {
      assert forall i | 0 <= i < |tsList| :: tsList[i] in tsList;
    }
    ghost var colors := seq(|tsList|, i requires 0 <= i < |tsList| =>
                              ColorAt(byTs, tsList, selected.value, downstream, i));
    hide ColorAt, Filed, Behind, Indexed;
    var current: Option<Band> := None;
    for i := 0 to |tsList|
      invariant result + (if current.Some? then [current.value] else []) == Merged(tsList, colors, i)
      invariant current.Some? <==> i > 0 && colors[i - 1].Some?
      invariant current.Some? ==> colors[i - 1] == Some(current.value.color)
    {
      var color := Classify(byTs, tsList, selected.value, downstream, i);
      assert color == colors[i];
      if color.Some? {
        if current.Some? && current.value.color == color.value {
          current := Some(current.value.(end := tsList[i]));
        } else {
          if current.Some? {
            result := result + [current.value];
          }
          current := Some(Band(tsList[i], tsList[i], color.value));
        }
      } else if current.Some? {
        result := result + [current.value];
        current := None;
      }
    }
    if current.Some? {
      result := result + [current.value];
    }
  }
}
