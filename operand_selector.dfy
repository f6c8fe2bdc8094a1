/** The operand picker: a case-insensitive search over the metric and constant
    catalogues, and the metrics grouped under their category headings. */
module OperandSelector {
  import opened Wrappers
  import opened Text
  import opened Seqs
  import opened CalculatedMetricTypes

  /** `text.toLowerCase().includes(search.toLowerCase())`. */
  predicate MatchesSearch(text: string, search: string) {
    Includes(ToLowerAscii(text), ToLowerAscii(search))
  }

  /** The metric test with a missing `source` counting as no match. */
  predicate MetricMatches(m: Metric, search: string) {
    MatchesSearch(m.name, search) || (m.source.Some? && MatchesSearch(m.source.value, search))
  }

  /** `filteredMetrics`, with a metric that has no source kept only when its
      name matches: the order-preserving sublist of the matching metrics. */
  function FilterMetrics(ms: seq<Metric>, search: string): (r: seq<Metric>)
    ensures forall m :: m in r ==> m in ms && MetricMatches(m, search)
    ensures forall m :: m in ms ==> multiset(r)[m] == if MetricMatches(m, search) then multiset(ms)[m] else 0
    ensures SubsequenceOf(r, ms)
  {
    if |ms| == 0 then []
    else
      assert ms == [ms[0]] + ms[1..];
      var rest := FilterMetrics(ms[1..], search);
      if MetricMatches(ms[0], search) then
        assert ([ms[0]] + rest)[1..] == rest;
        [ms[0]] + rest
      else rest
  }

  /** `filteredMetrics` as written: `m.source.toLowerCase()` is evaluated for
      every metric whose name does not match, and throws a TypeError (`None`)
      when that metric has no source. */
  function FilterMetricsAsWritten(ms: seq<Metric>, search: string): (r: Option<seq<Metric>>)
    ensures r.None? <==> exists i :: 0 <= i < |ms| && !MatchesSearch(ms[i].name, search) && ms[i].source.None?
    ensures r.Some? ==> r.value == FilterMetrics(ms, search)
  {
    if |ms| == 0 then Some([])
    else
      var rest := FilterMetricsAsWritten(ms[1..], search);
      assert forall i :: 1 <= i < |ms| ==> ms[i] == ms[1..][i - 1];
      if !MatchesSearch(ms[0].name, search) && ms[0].source.None? then None
      else if rest.None? then None
      else if MetricMatches(ms[0], search) then Some([ms[0]] + rest.value)
      else rest
  }

  /** A metric without a source throws as soon as the search misses its name. */
  lemma FilterMetricsAsWrittenThrows()
    ensures FilterMetricsAsWritten([Metric("clicks-paid", "Clicks", None, None)], "x").None?
  {
    var lowered := ToLowerAscii("Clicks");
    assert ToLowerAscii("x") == "x";
    forall i | 0 <= i <= |lowered| - 1 ensures !OccursAt(lowered, "x", i) {
      assert lowered[i..i + 1][0] == lowered[i] != 'x';
    }
  }

  /** `filteredConstants`: only the name is searched. */
  function FilterConstants(cs: seq<Constant>, search: string): (r: seq<Constant>)
    ensures forall c :: c in r ==> c in cs && MatchesSearch(c.name, search)
    ensures forall c :: c in cs ==> multiset(r)[c] == if MatchesSearch(c.name, search) then multiset(cs)[c] else 0
    ensures SubsequenceOf(r, cs)
  {
    if |cs| == 0 then []
    else
      assert cs == [cs[0]] + cs[1..];
      var rest := FilterConstants(cs[1..], search);
      if MatchesSearch(cs[0].name, search) then
        assert ([cs[0]] + rest)[1..] == rest;
        [cs[0]] + rest
      else rest
  }

  /** Every text matches the empty search. */
  lemma EmptySearchMatches(text: string)
    ensures MatchesSearch(text, "")
  {
    assert ToLowerAscii("") == "";
    IncludesEmpty(ToLowerAscii(text));
  }

  lemma FilterMetricsHead(ms: seq<Metric>, search: string)
    requires |ms| > 0
    ensures FilterMetrics(ms, search) ==
      (if MetricMatches(ms[0], search) then [ms[0]] else []) + FilterMetrics(ms[1..], search)
  {
    if !MetricMatches(ms[0], search) {
      assert [] + FilterMetrics(ms[1..], search) == FilterMetrics(ms[1..], search);
    }
  }

  lemma FilterConstantsHead(cs: seq<Constant>, search: string)
    requires |cs| > 0
    ensures FilterConstants(cs, search) ==
      (if MatchesSearch(cs[0].name, search) then [cs[0]] else []) + FilterConstants(cs[1..], search)
  {
    if !MatchesSearch(cs[0].name, search) {
      assert [] + FilterConstants(cs[1..], search) == FilterConstants(cs[1..], search);
    }
  }

  lemma {:induction false} EmptySearchKeepsMetrics(ms: seq<Metric>)
    ensures FilterMetrics(ms, "") == ms
    decreases |ms|
  {
    if |ms| > 0 {
      FilterMetricsHead(ms, "");
      EmptySearchMatches(ms[0].name);
      EmptySearchKeepsMetrics(ms[1..]);
      assert [ms[0]] + ms[1..] == ms;
    }
  }

  lemma {:induction false} EmptySearchKeepsConstants(cs: seq<Constant>)
    ensures FilterConstants(cs, "") == cs
    decreases |cs|
  {
    if |cs| > 0 {
      FilterConstantsHead(cs, "");
      EmptySearchMatches(cs[0].name);
      EmptySearchKeepsConstants(cs[1..]);
      assert [cs[0]] + cs[1..] == cs;
    }
  }

  /** An empty search keeps every metric and every constant. */
  lemma EmptySearchKeepsAll(ms: seq<Metric>, cs: seq<Constant>)
    ensures FilterMetrics(ms, "") == ms
    ensures FilterConstants(cs, "") == cs
  {
    EmptySearchKeepsMetrics(ms);
    EmptySearchKeepsConstants(cs);
  }

  /** `metric.category || 'Other'`: a missing or empty category is 'Other'. */
  function CategoryOf(m: Metric): (r: string)
    ensures r != ""
    ensures m.category.Some? && m.category.value != "" ==> r == m.category.value
    ensures r == "Other" <==> m.category.None? || m.category.value == "" || m.category.value == "Other"
  {
    if m.category.Some? && m.category.value != "" then m.category.value else "Other"
  }

  /** The metrics of category `c`, in their order. */
  function Bucket(ms: seq<Metric>, c: string): (r: seq<Metric>)
    ensures forall m :: m in r ==> m in ms && CategoryOf(m) == c
    ensures forall m :: m in ms ==> multiset(r)[m] == if CategoryOf(m) == c then multiset(ms)[m] else 0
    ensures SubsequenceOf(r, ms)
  {
    if |ms| == 0 then []
    else
      assert ms == [ms[0]] + ms[1..];
      var rest := Bucket(ms[1..], c);
      if CategoryOf(ms[0]) == c then
        assert ([ms[0]] + rest)[1..] == rest;
        [ms[0]] + rest
      else rest
  }

  /** One step of `Bucket`: the head is kept or dropped. */
  lemma BucketHead(ms: seq<Metric>, c: string)
    requires |ms| > 0
    ensures Bucket(ms, c) == (if CategoryOf(ms[0]) == c then [ms[0]] else []) + Bucket(ms[1..], c)
  {
    if CategoryOf(ms[0]) != c {
      assert [] + Bucket(ms[1..], c) == Bucket(ms[1..], c);
    }
  }

  lemma {:induction false} BucketSnoc(ms: seq<Metric>, m: Metric, c: string)
    ensures Bucket(ms + [m], c) == Bucket(ms, c) + (if CategoryOf(m) == c then [m] else [])
    decreases |ms|
  {
    var t := ms + [m];
    var x := if CategoryOf(m) == c then [m] else [];
    if |ms| == 0 {
      assert Bucket(t, c) == x + [] by {
        BucketHead(t, c);
        assert t[1..] == [];
      }
    } else {
      var h := if CategoryOf(ms[0]) == c then [ms[0]] else [];
      assert Bucket(t, c) == h + Bucket(ms[1..] + [m], c) by {
        BucketHead(t, c);
        SnocHeadTail(ms, m);
      }
      assert Bucket(ms, c) == h + Bucket(ms[1..], c) by {
        BucketHead(ms, c);
      }
      BucketSnoc(ms[1..], m, c);
      AppendAssoc(h, Bucket(ms[1..], c), x);
    }
  }

  /** The categories of `ms` in the order they first occur: the order in which
      the reduce creates its buckets. */
  function CategoryOrder(ms: seq<Metric>): (r: seq<string>)
    ensures forall i, j :: 0 <= i < j < |r| ==> r[i] != r[j]
    ensures forall c :: c in r <==> exists i :: 0 <= i < |ms| && CategoryOf(ms[i]) == c
  {
    if |ms| == 0 then []
    else
      var init := ms[..|ms| - 1];
      var p := CategoryOrder(init);
      var c := CategoryOf(ms[|ms| - 1]);
      assert forall i :: 0 <= i < |init| ==> init[i] == ms[i];
      if c in p then p else p + [c]
  }

  /** One step of the reduce: the bucket of `m`'s category, created empty
      when the category is new, with `m` pushed onto it. */
  function PushMetric(groups: map<string, seq<Metric>>, m: Metric): (r: map<string, seq<Metric>>)
    ensures r.Keys == groups.Keys + {CategoryOf(m)}
    ensures r[CategoryOf(m)] == (if CategoryOf(m) in groups then groups[CategoryOf(m)] else []) + [m]
    ensures forall c :: c in groups && c != CategoryOf(m) ==> r[c] == groups[c]
  {
    var c := CategoryOf(m);
    groups[c := (if c in groups then groups[c] else []) + [m]]
  }

  /** A category that does not occur has an empty bucket. */
  lemma BucketOfUnseen(ms: seq<Metric>, c: string)
    requires c !in CategoryOrder(ms)
    ensures Bucket(ms, c) == []
  {
  }

  lemma CategoryOrderStep(ms: seq<Metric>, i: nat)
    requires i < |ms|
    ensures var c, p := CategoryOf(ms[i]), CategoryOrder(ms[..i]);
      CategoryOrder(ms[..i + 1]) == if c in p then p else p + [c]
  {
    assert ms[..i + 1][..i] == ms[..i];
  }

  /** Pushing the next metric keeps the buckets equal to those of the prefix. */
  lemma PushMetricStep(ms: seq<Metric>, i: nat, order: seq<string>, groups: map<string, seq<Metric>>)
    requires i < |ms| && order == CategoryOrder(ms[..i])
    requires forall c :: c in groups <==> c in order
    requires forall c :: c in groups ==> groups[c] == Bucket(ms[..i], c)
    ensures forall c :: c in PushMetric(groups, ms[i]) ==> PushMetric(groups, ms[i])[c] == Bucket(ms[..i + 1], c)
  {
    var m, pre := ms[i], ms[..i];
    var k, g := CategoryOf(m), PushMetric(groups, m);
    assert ms[..i + 1] == pre + [m];
    forall c | c in g ensures g[c] == Bucket(ms[..i + 1], c) {
      BucketSnoc(pre, m, c);
      if c == k {
        if k !in groups {
          BucketOfUnseen(pre, k);
        }
        assert g[c] == (if k in groups then groups[k] else []) + [m];
      } else {
        assert g[c] == groups[c];
      }
    }
  }

  /** `groupedMetrics`: a reduce that creates a bucket the first time a
      category is seen and pushes each metric onto its bucket; `order` is the
      order of `Object.entries`. */
  method GroupMetrics(ms: seq<Metric>) returns (order: seq<string>, groups: map<string, seq<Metric>>)
    ensures order == CategoryOrder(ms)
    ensures forall c :: c in groups <==> c in order
    ensures forall c :: c in groups ==> groups[c] == Bucket(ms, c)
  {
    order, groups := [], map[];
    var i := 0;
    while i < |ms|
      invariant 0 <= i <= |ms|
      invariant order == CategoryOrder(ms[..i])
      invariant forall c :: c in groups <==> c in order
      invariant forall c :: c in groups ==> groups[c] == Bucket(ms[..i], c)
    {
      var category := CategoryOf(ms[i]);
      CategoryOrderStep(ms, i);
      PushMetricStep(ms, i, order, groups);
      if category !in groups {
        order := order + [category];
      }
      groups := PushMetric(groups, ms[i]);
      i := i + 1;
    }
    assert ms[..|ms|] == ms;
  }

  /** Bucketing partitions the metrics: each lands in the bucket of its own
      category and in no other. */
  lemma BucketsPartition(ms: seq<Metric>, m: Metric, c: string)
    requires m in ms
    ensures m in Bucket(ms, c) <==> c == CategoryOf(m)
    ensures CategoryOf(m) in CategoryOrder(ms)
  {
    assert multiset(ms)[m] > 0;
    var i :| 0 <= i < |ms| && ms[i] == m;
    assert CategoryOf(ms[i]) == CategoryOf(m);
  }

  /** The total size of the buckets of `cs`. */
  function BucketSizes(ms: seq<Metric>, cs: seq<string>): nat {
    if |cs| == 0 then 0 else BucketSizes(ms, cs[..|cs| - 1]) + |Bucket(ms, cs[|cs| - 1])|
  }

  lemma {:induction false} BucketSizesSnoc(ms: seq<Metric>, m: Metric, cs: seq<string>)
    requires forall i, j :: 0 <= i < j < |cs| ==> cs[i] != cs[j]
    ensures BucketSizes(ms + [m], cs) == BucketSizes(ms, cs) + (if CategoryOf(m) in cs then 1 else 0)
    decreases |cs|
  {
    if |cs| > 0 {
      var init := cs[..|cs| - 1];
      BucketSizesSnoc(ms, m, init);
      BucketSnoc(ms, m, cs[|cs| - 1]);
      assert CategoryOf(m) in cs <==> CategoryOf(m) in init || CategoryOf(m) == cs[|cs| - 1];
      if CategoryOf(m) == cs[|cs| - 1] {
        assert CategoryOf(m) !in init;
      }
    }
  }

  /** The buckets together hold exactly as many metrics as were filtered. */
  lemma {:induction false} BucketSizesTotal(ms: seq<Metric>)
    ensures BucketSizes(ms, CategoryOrder(ms)) == |ms|
    decreases |ms|
  {
    if |ms| > 0 {
      var init := ms[..|ms| - 1];
      var m := ms[|ms| - 1];
      var c := CategoryOf(m);
      var p := CategoryOrder(init);
      assert ms == init + [m];
      BucketSizesTotal(init);
      BucketSizesSnoc(init, m, p);
      if c !in p {
        BucketOfUnseen(init, c);
        BucketSnoc(init, m, c);
        assert (p + [c])[..|p|] == p;
      }
    }
  }

  /** "No metrics found" shows exactly when there is no category heading,
      that is, when no metric survives the filter. */
  lemma NoMetricsFoundIffNoHeadings(filtered: seq<Metric>)
    ensures |filtered| == 0 <==> |CategoryOrder(filtered)| == 0
  {
    if |filtered| > 0 {
      assert CategoryOf(filtered[0]) in CategoryOrder(filtered);
    }
  }
}
