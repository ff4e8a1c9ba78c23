// Scan-time prices of src/redstone.rs: per feed, the median value and the
// lower-median timestamp over distinct signers, behind the freshness guards.

module ScanMedian {
  import opened Foundations
  import opened DecimalText
  import opened Payload

  const MAX_FUTURE_SKEW_MS: nat := 30_000

  /** `mantissa` is in hundred-millionths, `publishTime` in seconds. */
  datatype Price = Price(mantissa: nat, publishTime: nat)

  datatype SkipReason =
    | NoUsablePackage
    | MedianOutOfRange
    | TimestampOutOfRange
    | NoTimestamp
    | Stale
    | FutureDated

  /** `Abort`: the age of the quote does not fit the machine's integer. */
  datatype Scan = Priced(price: Price) | Skipped(reason: SkipReason) | Abort

  // ---------- lists up to order ----------

  /** What f makes of each element, in order. */
  function Collect<T, U>(s: seq<T>, f: T -> seq<U>): seq<U> {
    if s == [] then [] else Collect(s[..|s| - 1], f) + f(s[|s| - 1])
  }

  lemma {:induction false} CollectConcat<T, U>(a: seq<T>, b: seq<T>, f: T -> seq<U>)
    ensures Collect(a + b, f) == Collect(a, f) + Collect(b, f)
  {
    if b == [] {
      assert a + b == a;
    } else {
      assert (a + b)[..|a + b| - 1] == a + b[..|b| - 1];
      CollectConcat(a, b[..|b| - 1], f);
    }
  }

  lemma CollectOne<T, U>(x: T, f: T -> seq<U>)
    ensures Collect([x], f) == f(x)
  {
  }

  lemma SplitOff<T>(b: seq<T>, x: T) returns (before: seq<T>, after: seq<T>)
    requires x in b
    ensures b == before + [x] + after
    ensures multiset(before + after) == multiset(b) - multiset{x}
  {
    var i :| 0 <= i < |b| && b[i] == x;
    before, after := b[..i], b[i + 1..];
  }

  lemma LastSplitsOff<T>(s: seq<T>)
    requires s != []
    ensures multiset(s[..|s| - 1]) == multiset(s) - multiset{s[|s| - 1]}
  {
    assert s == s[..|s| - 1] + [s[|s| - 1]];
  }

  /** Collecting from a permutation gives a permutation. */
  lemma {:induction false} CollectOfPermutation<T, U>(a: seq<T>, b: seq<T>, f: T -> seq<U>)
    requires multiset(a) == multiset(b)
    ensures multiset(Collect(a, f)) == multiset(Collect(b, f))
  {
    if a == [] {
      assert |multiset(b)| == 0;
    } else {
      var init, x := a[..|a| - 1], a[|a| - 1];
      LastSplitsOff(a);
      assert x in multiset(b);
      var before, after := SplitOff(b, x);
      CollectOfPermutation(init, before + after, f);
      CollectConcat(before + [x], after, f);
      CollectConcat(before, [x], f);
      CollectConcat(before, after, f);
      CollectOne(x, f);
    }
  }

  // ---------- sorting ----------

  ghost predicate Sorted(s: seq<nat>) {
    forall i, j :: 0 <= i < j < |s| ==> s[i] <= s[j]
  }

  function Insert(x: nat, s: seq<nat>): (r: seq<nat>)
    requires Sorted(s)
    ensures Sorted(r) && multiset(r) == multiset(s) + multiset{x}
  {
    if s == [] then [x]
    else if s[|s| - 1] <= x then s + [x]
    else
      assert s == s[..|s| - 1] + [s[|s| - 1]];
      var r := Insert(x, s[..|s| - 1]);
      InsertBelow(r, s[..|s| - 1], x, s[|s| - 1]);
      r + [s[|s| - 1]]
  }

  lemma InsertBelow(r: seq<nat>, s: seq<nat>, x: nat, bound: nat)
    requires multiset(r) == multiset(s) + multiset{x}
    requires x <= bound && forall i :: 0 <= i < |s| ==> s[i] <= bound
    ensures forall i :: 0 <= i < |r| ==> r[i] <= bound
  {
    forall i | 0 <= i < |r| ensures r[i] <= bound {
      assert r[i] in multiset(r);
    }
  }

  /** `sort_unstable`. */
  function Sort(s: seq<nat>): (r: seq<nat>)
    ensures Sorted(r) && multiset(r) == multiset(s) && |r| == |s|
  {
    if s == [] then [] else
    assert s == s[..|s| - 1] + [s[|s| - 1]];
    var r := Insert(s[|s| - 1], Sort(s[..|s| - 1]));
    assert |multiset(r)| == |multiset(s)|;
    r
  }

  lemma SameLast(a: seq<nat>, b: seq<nat>)
    requires Sorted(a) && Sorted(b) && multiset(a) == multiset(b) && a != []
    ensures b != [] && a[|a| - 1] == b[|b| - 1]
  {
    assert a[|a| - 1] in multiset(b);
    assert b[|b| - 1] in multiset(a);
  }

  /** There is one way to sort. */
  lemma {:induction false} SortedUnique(a: seq<nat>, b: seq<nat>)
    requires Sorted(a) && Sorted(b) && multiset(a) == multiset(b)
    ensures a == b
  {
    if a == [] {
      assert |multiset(b)| == 0;
    } else {
      SameLast(a, b);
      LastSplitsOff(a);
      LastSplitsOff(b);
      SortedUnique(a[..|a| - 1], b[..|b| - 1]);
    }
  }

  // ---------- one feed ----------

  /** A package whose value text scales. */
  datatype Sample = Sample(signer: Signer, value: nat, stamp: nat)

  function SampleOf(p: SignedPackage): seq<Sample> {
    match ScaleValue(p.valueText)
    case None => []
    case Some(value) => [Sample(p.claimedSigner, value, p.timestamp)]
  }

  function Samples(list: seq<SignedPackage>): seq<Sample> {
    Collect(list, SampleOf)
  }

  function SampleSigners(samples: seq<Sample>): set<Signer> {
    set s | s in samples :: s.signer
  }

  function CountedWith(counted: seq<Sample>, sample: Sample): seq<Sample> {
    if sample.signer in SampleSigners(counted) then counted else counted + [sample]
  }

  /** The first sample of each signer. */
  function Counted(samples: seq<Sample>): seq<Sample> {
    if samples == [] then [] else CountedWith(Counted(samples[..|samples| - 1]), samples[|samples| - 1])
  }

  function Values(samples: seq<Sample>): (v: seq<nat>)
    ensures |v| == |samples|
  {
    seq(|samples|, i requires 0 <= i < |samples| => samples[i].value)
  }

  function Stamps(samples: seq<Sample>): (t: seq<nat>)
    ensures |t| == |samples|
  {
    seq(|samples|, i requires 0 <= i < |samples| => samples[i].stamp)
  }

  /** The median of a sorted list: the middle, or the middle two's mean rounded
      half up when their sum fits. */
  function Median(sorted: seq<nat>): Option<nat>
    requires sorted != []
  {
    var mid := |sorted| / 2;
    if |sorted| % 2 == 1 then Some(sorted[mid])
    else if sorted[mid - 1] + sorted[mid] + 1 > U128_MAX then None
    else Some((sorted[mid - 1] + sorted[mid] + 1) / 2)
  }

  function LowerMedian(sorted: seq<nat>): nat
    requires sorted != []
  {
    sorted[(|sorted| - 1) / 2]
  }

  function MedianValue(counted: seq<Sample>): Option<nat>
    requires counted != []
  {
    Median(Sort(Values(counted)))
  }

  function MedianStamp(counted: seq<Sample>): nat
    requires counted != []
  {
    LowerMedian(Sort(Stamps(counted)))
  }

  /** The guards, in order. */
  function Guarded(median: Option<nat>, stamp: nat, now: int, maxAge: nat): Scan {
    if median == None || median.value > I64_MAX || median.value < 1 then Skipped(MedianOutOfRange)
    else if stamp > I64_MAX then Skipped(TimestampOutOfRange)
    else if stamp <= 0 then Skipped(NoTimestamp)
    else if now - stamp < I64_MIN then Abort
    else if now - stamp > maxAge then Skipped(Stale)
    else if now - stamp < 0 - MAX_FUTURE_SKEW_MS then Skipped(FutureDated)
    else Priced(Price(median.value, stamp / 1000))
  }

  function Quote(counted: seq<Sample>, now: int, maxAge: nat): Scan {
    if counted == [] then Skipped(NoUsablePackage)
    else Guarded(MedianValue(counted), MedianStamp(counted), now, maxAge)
  }

  function ScanFeed(list: seq<SignedPackage>, now: int, maxAge: nat): Scan {
    Quote(Counted(Samples(list)), now, maxAge)
  }

  /** The vectors and the signer set hold exactly the counted samples. */
  ghost predicate Holds(values: seq<nat>, stamps: seq<nat>, signers: set<Signer>, counted: seq<Sample>) {
    values == Values(counted) && stamps == Stamps(counted) && signers == SampleSigners(counted)
  }

  /** Counts a sample unless its signer was counted before. */
  method CountSample(sample: Sample, values: seq<nat>, stamps: seq<nat>, signers: set<Signer>, ghost counted: seq<Sample>)
    returns (values': seq<nat>, stamps': seq<nat>, signers': set<Signer>)
    requires Holds(values, stamps, signers, counted)
    ensures Holds(values', stamps', signers', CountedWith(counted, sample))
  {
    if sample.signer in signers {
      return values, stamps, signers;
    }
    SampleSignersAppend(counted, sample);
    return values + [sample.value], stamps + [sample.stamp], signers + {sample.signer};
  }

  method ReadSample(package: SignedPackage) returns (sample: Option<Sample>)
    ensures SampleOf(package) == if sample.Some? then [sample.value] else []
  {
    var value := ScaleValue(package.valueText);
    sample := if value == None then None else Some(Sample(package.claimedSigner, value.value, package.timestamp));
  }

  /** One value and one timestamp per signer, first come first counted. */
  method CollectSamples(list: seq<SignedPackage>) returns (values: seq<nat>, stamps: seq<nat>)
    ensures values == Values(Counted(Samples(list)))
    ensures stamps == Stamps(Counted(Samples(list)))
  {
    var signers: set<Signer> := {};
    values, stamps := [], [];
    for i := 0 to |list|
      invariant Holds(values, stamps, signers, Counted(Samples(list[..i])))
    {
      SamplesGrow(list, i);
      var sample := ReadSample(list[i]);
      if sample == None {
        continue;
      }
      CountedGrows(Samples(list[..i]), sample.value);
      values, stamps, signers := CountSample(sample.value, values, stamps, signers, Counted(Samples(list[..i])));
    }
    assert list[..|list|] == list;
  }

  lemma SamplesGrow(list: seq<SignedPackage>, i: nat)
    requires i < |list|
    ensures Samples(list[..i + 1]) == Samples(list[..i]) + SampleOf(list[i])
    ensures Samples(list[..i]) + [] == Samples(list[..i])
  {
    assert list[..i + 1][..i] == list[..i];
  }

  lemma CountedGrows(samples: seq<Sample>, more: Sample)
    ensures Counted(samples + [more]) == CountedWith(Counted(samples), more)
  {
  }

  lemma SampleSignersAppend(samples: seq<Sample>, s: Sample)
    ensures SampleSigners(samples + [s]) == SampleSigners(samples) + {s.signer}
  {
  }

  method ScanOne(list: seq<SignedPackage>, now: int, maxAge: nat) returns (r: Scan)
    requires I64_MIN <= now <= I64_MAX
    ensures r == ScanFeed(list, now, maxAge)
  {
    var values, stamps := CollectSamples(list);
    if values == [] {
      return Skipped(NoUsablePackage);
    }
    values, stamps := Sort(values), Sort(stamps);
    var median := Median(values);
    if median == None || median.value > I64_MAX || median.value < 1 {
      return Skipped(MedianOutOfRange);
    }
    var stamp := LowerMedian(stamps);
    if stamp > I64_MAX {
      return Skipped(TimestampOutOfRange);
    }
    if stamp <= 0 {
      return Skipped(NoTimestamp);
    }
    if now - stamp < I64_MIN {
      return Abort;
    }
    var age := now - stamp;
    if age > maxAge {
      return Skipped(Stale);
    }
    if age < 0 - MAX_FUTURE_SKEW_MS {
      return Skipped(FutureDated);
    }
    r := Priced(Price(median.value, stamp / 1000));
  }

  /** All symbols' prices; a symbol without packages or price is absent. */
  method ScanPrices(packages: map<Feed, seq<SignedPackage>>, symbols: seq<Feed>, now: int, maxAge: nat)
    returns (r: Option<map<Feed, Price>>)
    requires I64_MIN <= now <= I64_MAX
    ensures r.None? <==> exists f :: f in symbols && f in packages && ScanFeed(packages[f], now, maxAge).Abort?
    ensures r.Some? ==> forall f :: f in r.value <==> f in symbols && f in packages && ScanFeed(packages[f], now, maxAge).Priced?
    ensures r.Some? ==> forall f :: f in r.value ==> Priced(r.value[f]) == ScanFeed(packages[f], now, maxAge)
  {
    var prices: map<Feed, Price> := map[];
    for i := 0 to |symbols|
      invariant forall f :: f in symbols[..i] && f in packages ==> !ScanFeed(packages[f], now, maxAge).Abort?
      invariant forall f :: f in prices <==> f in symbols[..i] && f in packages && ScanFeed(packages[f], now, maxAge).Priced?
      invariant forall f :: f in prices ==> Priced(prices[f]) == ScanFeed(packages[f], now, maxAge)
    {
      assert symbols[..i + 1] == symbols[..i] + [symbols[i]];
      if symbols[i] in packages {
        var scan := ScanOne(packages[symbols[i]], now, maxAge);
        if scan.Abort? {
          return None;
        }
        if scan.Priced? {
          prices := prices[symbols[i] := scan.price];
        }
      }
    }
    assert symbols[..|symbols|] == symbols;
    r := Some(prices);
  }

  // ---------- each signer counts once ----------

  ghost predicate OnePerSigner(samples: seq<Sample>) {
    forall i, j :: 0 <= i < j < |samples| ==> samples[i].signer != samples[j].signer
  }

  /** No signer counts twice, and every signer with a readable package counts. */
  lemma {:induction false} CountedOncePerSigner(samples: seq<Sample>)
    ensures OnePerSigner(Counted(samples))
    ensures SampleSigners(Counted(samples)) == SampleSigners(samples)
  {
    if samples != [] {
      var init, last := samples[..|samples| - 1], samples[|samples| - 1];
      CountedOncePerSigner(init);
      assert samples == init + [last];
      var c := Counted(init);
      SampleSignersAppend(init, last);
      SampleSignersAppend(c, last);
      forall i | 0 <= i < |c| ensures c[i].signer in SampleSigners(c) {
        assert c[i] in c;
      }
    }
  }

  /** What counts of a signer is its first readable package. */
  ghost predicate IsFirst(c: Sample, samples: seq<Sample>) {
    exists i :: 0 <= i < |samples| && samples[i] == c && forall j :: 0 <= j < i ==> samples[j].signer != c.signer
  }

  lemma {:induction false} CountedAreFirst(samples: seq<Sample>)
    ensures forall c :: c in Counted(samples) ==> IsFirst(c, samples)
  {
    if samples != [] {
      var init, last := samples[..|samples| - 1], samples[|samples| - 1];
      CountedAreFirst(init);
      CountedOncePerSigner(init);
      forall c | c in Counted(samples) ensures IsFirst(c, samples) {
        if c in Counted(init) {
          var i :| 0 <= i < |init| && init[i] == c && forall j :: 0 <= j < i ==> init[j].signer != c.signer;
          assert samples[i] == c && forall j :: 0 <= j < i ==> samples[j] == init[j];
        } else {
          assert c == last && last.signer !in SampleSigners(init);
          assert forall j :: 0 <= j < |init| ==> samples[j] == init[j] && init[j] in init;
        }
      }
    }
  }

  // ---------- a majority decides ----------

  function Within(lo: nat, hi: nat): nat -> seq<nat> {
    (x: nat) => if lo <= x <= hi then [x] else []
  }

  function CountIn(s: seq<nat>, lo: nat, hi: nat): nat {
    |Collect(s, Within(lo, hi))|
  }

  ghost predicate MajorityIn(s: seq<nat>, lo: nat, hi: nat) {
    2 * CountIn(s, lo, hi) > |s|
  }

  lemma {:induction false} CountBound(s: seq<nat>, lo: nat, hi: nat)
    ensures CountIn(s, lo, hi) <= |s|
  {
    if s != [] {
      CountBound(s[..|s| - 1], lo, hi);
    }
  }

  lemma {:induction false} NoneCounted(s: seq<nat>, lo: nat, hi: nat)
    requires forall i :: 0 <= i < |s| ==> !(lo <= s[i] <= hi)
    ensures CountIn(s, lo, hi) == 0
  {
    if s != [] {
      NoneCounted(s[..|s| - 1], lo, hi);
    }
  }

  lemma CountSplit(s: seq<nat>, k: nat, lo: nat, hi: nat)
    requires k <= |s|
    ensures CountIn(s, lo, hi) == CountIn(s[..k], lo, hi) + CountIn(s[k..], lo, hi)
  {
    assert s == s[..k] + s[k..];
    CollectConcat(s[..k], s[k..], Within(lo, hi));
  }

  lemma {:induction false} AllCounted(s: seq<nat>, lo: nat, hi: nat)
    requires forall i :: 0 <= i < |s| ==> lo <= s[i] <= hi
    ensures CountIn(s, lo, hi) == |s|
  {
    if s != [] {
      AllCounted(s[..|s| - 1], lo, hi);
    }
  }

  /** Counting does not see the order. */
  lemma SortKeepsCount(s: seq<nat>, lo: nat, hi: nat)
    ensures CountIn(Sort(s), lo, hi) == CountIn(s, lo, hi)
  {
    CollectOfPermutation(s, Sort(s), Within(lo, hi));
    assert |multiset(Collect(s, Within(lo, hi)))| == |multiset(Collect(Sort(s), Within(lo, hi)))|;
  }

  lemma SortKeepsMajority(s: seq<nat>, lo: nat, hi: nat)
    requires MajorityIn(s, lo, hi)
    ensures MajorityIn(Sort(s), lo, hi)
  {
    SortKeepsCount(s, lo, hi);
  }

  lemma FewFrom(s: seq<nat>, k: nat, lo: nat, hi: nat)
    requires Sorted(s) && k < |s| && s[k] < lo
    ensures CountIn(s, lo, hi) <= |s| - k - 1
  {
    CountSplit(s, k + 1, lo, hi);
    NoneCounted(s[..k + 1], lo, hi);
    CountBound(s[k + 1..], lo, hi);
  }

  lemma FewBelow(s: seq<nat>, k: nat, lo: nat, hi: nat)
    requires Sorted(s) && k < |s| && hi < s[k]
    ensures CountIn(s, lo, hi) <= k
  {
    CountSplit(s, k, lo, hi);
    CountBound(s[..k], lo, hi);
    NoneCounted(s[k..], lo, hi);
  }

  /** In a sorted list whose majority lies in an interval, an element with at
      most half of the list on either side lies in it too. */
  lemma MiddleOfMajority(s: seq<nat>, lo: nat, hi: nat, k: nat)
    requires Sorted(s) && MajorityIn(s, lo, hi)
    requires k < |s| && |s| <= 2 * k + 2 && 2 * k <= |s|
    ensures lo <= s[k] <= hi
  {
    if s[k] < lo {
      FewFrom(s, k, lo, hi);
    } else if hi < s[k] {
      FewBelow(s, k, lo, hi);
    }
  }

  /** If a strict majority of a sorted list lies in an interval, so does the
      median, its half-up mean included. */
  lemma MedianOfMajority(s: seq<nat>, lo: nat, hi: nat)
    requires Sorted(s) && s != [] && MajorityIn(s, lo, hi)
    ensures Median(s).Some? ==> lo <= Median(s).value <= hi
    ensures 2 * hi < U128_MAX ==> Median(s).Some?
  {
    MiddleOfMajority(s, lo, hi, |s| / 2);
    if |s| % 2 == 0 {
      MiddleOfMajority(s, lo, hi, |s| / 2 - 1);
    }
  }

  lemma LowerMedianOfMajority(s: seq<nat>, lo: nat, hi: nat)
    requires Sorted(s) && s != [] && MajorityIn(s, lo, hi)
    ensures lo <= LowerMedian(s) <= hi
  {
    MiddleOfMajority(s, lo, hi, (|s| - 1) / 2);
  }

  lemma LowerMedianRank(s: seq<nat>, x: nat)
    requires Sorted(s) && s != []
    ensures LowerMedian(s) <= x <==> 2 * CountIn(s, 0, x) >= |s|
  {
    var k := (|s| - 1) / 2;
    if s[k] <= x {
      CountSplit(s, k + 1, 0, x);
      AllCounted(s[..k + 1], 0, x);
    } else {
      FewBelow(s, k, 0, x);
    }
  }

  /** The time behind a quote is the lower median: it is at most x exactly when
      half of the counted timestamps, or more, are. */
  lemma StampRank(counted: seq<Sample>, x: nat)
    requires counted != []
    ensures MedianStamp(counted) <= x <==> 2 * CountIn(Stamps(counted), 0, x) >= |counted|
  {
    LowerMedianRank(Sort(Stamps(counted)), x);
    SortKeepsCount(Stamps(counted), 0, x);
  }

  lemma OddMedianIsLower(s: seq<nat>)
    requires |s| % 2 == 1
    ensures Median(s) == Some(LowerMedian(s))
  {
    assert |s| / 2 == (|s| - 1) / 2;
  }

  /** For odd counts so is the value. */
  lemma OddMedianRank(counted: seq<Sample>, x: nat)
    requires |counted| % 2 == 1
    ensures MedianValue(counted).Some?
    ensures MedianValue(counted).value <= x <==> 2 * CountIn(Values(counted), 0, x) >= |counted|
  {
    OddMedianIsLower(Sort(Values(counted)));
    LowerMedianRank(Sort(Values(counted)), x);
    SortKeepsCount(Values(counted), 0, x);
  }

  lemma ValuesFollow(values: seq<nat>, lo: nat, hi: nat)
    requires values != [] && MajorityIn(values, lo, hi)
    ensures Median(Sort(values)).Some? ==> lo <= Median(Sort(values)).value <= hi
    ensures 2 * hi < U128_MAX ==> Median(Sort(values)).Some?
  {
    SortKeepsMajority(values, lo, hi);
    MedianOfMajority(Sort(values), lo, hi);
  }

  lemma StampsFollow(stamps: seq<nat>, lo: nat, hi: nat)
    requires stamps != [] && MajorityIn(stamps, lo, hi)
    ensures lo <= LowerMedian(Sort(stamps)) <= hi
  {
    SortKeepsMajority(stamps, lo, hi);
    LowerMedianOfMajority(Sort(stamps), lo, hi);
  }

  /** Exactly which medians the guards let through. */
  lemma GuardsExact(median: Option<nat>, stamp: nat, now: int, maxAge: nat)
    ensures Guarded(median, stamp, now, maxAge).Priced? <==>
              && median.Some? && 1 <= median.value <= I64_MAX
              && 1 <= stamp <= I64_MAX && I64_MIN <= now - stamp
              && now - maxAge <= stamp <= now + MAX_FUTURE_SKEW_MS
  {
  }

  /** And why the others are turned away: each reason, on the median and the
      timestamp alone. */
  lemma SkipsExact(median: Option<nat>, stamp: nat, now: int, maxAge: nat)
    requires I64_MIN <= now <= I64_MAX
    ensures var r := Guarded(median, stamp, now, maxAge);
            var priceable := median.Some? && 1 <= median.value <= I64_MAX;
            && (r == Skipped(MedianOutOfRange) <==> !priceable)
            && (r == Skipped(TimestampOutOfRange) <==> priceable && stamp > I64_MAX)
            && (r == Skipped(NoTimestamp) <==> priceable && stamp == 0)
            && (r == Skipped(Stale) <==> priceable && 0 < stamp <= I64_MAX && stamp < now - maxAge)
            && (r == Skipped(FutureDated) <==> priceable && now + MAX_FUTURE_SKEW_MS < stamp <= I64_MAX && stamp > 0 && now - stamp >= I64_MIN)
            && (r == Abort <==> priceable && 0 < stamp <= I64_MAX && now - stamp < I64_MIN)
  {
  }

  lemma PricedParts(median: Option<nat>, stamp: nat, now: int, maxAge: nat)
    requires Guarded(median, stamp, now, maxAge).Priced?
    ensures median == Some(Guarded(median, stamp, now, maxAge).price.mantissa)
    ensures Guarded(median, stamp, now, maxAge).price.publishTime == stamp / 1000
  {
  }

  lemma QuoteParts(counted: seq<Sample>, now: int, maxAge: nat)
    requires counted != []
    ensures Quote(counted, now, maxAge) == Guarded(MedianValue(counted), MedianStamp(counted), now, maxAge)
  {
  }

  /** A price is where a strict majority of its signers is. */
  lemma PriceFollowsMajority(counted: seq<Sample>, now: int, maxAge: nat, lo: nat, hi: nat)
    requires Quote(counted, now, maxAge).Priced?
    requires MajorityIn(Values(counted), lo, hi)
    ensures lo <= Quote(counted, now, maxAge).price.mantissa <= hi
  {
    QuoteParts(counted, now, maxAge);
    ValuesFollow(Values(counted), lo, hi);
    PricedParts(MedianValue(counted), MedianStamp(counted), now, maxAge);
  }

  lemma Thousandths(a: nat, b: nat)
    requires a <= b
    ensures a / 1000 <= b / 1000
  {
  }

  /** So is its time: a lagging minority does not age the quote. */
  lemma TimeFollowsMajority(counted: seq<Sample>, now: int, maxAge: nat, lo: nat, hi: nat)
    requires Quote(counted, now, maxAge).Priced?
    requires MajorityIn(Stamps(counted), lo, hi)
    ensures lo / 1000 <= Quote(counted, now, maxAge).price.publishTime <= hi / 1000
  {
    QuoteParts(counted, now, maxAge);
    StampsFollow(Stamps(counted), lo, hi);
    PricedParts(MedianValue(counted), MedianStamp(counted), now, maxAge);
    Thousandths(lo, MedianStamp(counted));
    Thousandths(MedianStamp(counted), hi);
  }

  /** Enough to be priced: a majority of usable values and one of timely
      stamps, not necessarily the same signers. */
  lemma MajorityIsPriced(counted: seq<Sample>, now: int, maxAge: nat)
    requires counted != []
    requires 0 < now && now + MAX_FUTURE_SKEW_MS <= I64_MAX
    requires MajorityIn(Values(counted), 1, I64_MAX)
    requires MajorityIn(Stamps(counted), Max(1, now - maxAge), now + MAX_FUTURE_SKEW_MS)
    ensures Quote(counted, now, maxAge).Priced?
  {
    QuoteParts(counted, now, maxAge);
    ValuesFollow(Values(counted), 1, I64_MAX);
    StampsFollow(Stamps(counted), Max(1, now - maxAge), now + MAX_FUTURE_SKEW_MS);
    GuardsExact(MedianValue(counted), MedianStamp(counted), now, maxAge);
  }

  /** A feed half of whose counted timestamps are stale is never priced. */
  lemma HalfStaleIsNotPriced(counted: seq<Sample>, now: int, maxAge: nat)
    requires now - maxAge > 0
    requires 2 * CountIn(Stamps(counted), 0, now - maxAge - 1) >= |counted|
    ensures !Quote(counted, now, maxAge).Priced?
  {
    if counted != [] {
      QuoteParts(counted, now, maxAge);
      StampRank(counted, now - maxAge - 1);
      GuardsExact(MedianValue(counted), MedianStamp(counted), now, maxAge);
    }
  }

  /** A majority from beyond the allowed skew is never priced either. */
  lemma FutureMajorityIsNotPriced(counted: seq<Sample>, now: nat, maxAge: nat)
    requires MajorityIn(Stamps(counted), now + MAX_FUTURE_SKEW_MS + 1, U64_MAX)
    ensures !Quote(counted, now, maxAge).Priced?
  {
    if counted != [] {
      StampsFollow(Stamps(counted), now + MAX_FUTURE_SKEW_MS + 1, U64_MAX);
      GuardsExact(MedianValue(counted), MedianStamp(counted), now, maxAge);
    }
  }

  /** A stale majority is never priced, however fresh the others are. */
  lemma StaleMajorityIsNotPriced(counted: seq<Sample>, now: int, maxAge: nat)
    requires now - maxAge > 0
    requires MajorityIn(Stamps(counted), 0, now - maxAge - 1)
    ensures !Quote(counted, now, maxAge).Priced?
  {
    if counted != [] {
      StampsFollow(Stamps(counted), 0, now - maxAge - 1);
      GuardsExact(MedianValue(counted), MedianStamp(counted), now, maxAge);
    }
  }

  /** The mean of the middle two is their exact half, rounded half up. */
  lemma EvenMedianRoundsHalfUp(sorted: seq<nat>)
    requires sorted != [] && |sorted| % 2 == 0 && Median(sorted).Some?
    ensures IsHalfUp(Median(sorted).value, Number(sorted[|sorted| / 2 - 1] + sorted[|sorted| / 2], 2))
  {
  }

  // ---------- order does not matter ----------

  lemma {:induction false} DistinctAllCount(samples: seq<Sample>)
    requires OnePerSigner(samples)
    ensures Counted(samples) == samples
  {
    if samples != [] {
      var init := samples[..|samples| - 1];
      DistinctAllCount(init);
      assert samples == init + [samples[|samples| - 1]];
    }
  }

  /** Packages of distinct signers are samples of distinct signers. */
  lemma {:induction false} DistinctSamples(list: seq<SignedPackage>)
    requires DistinctSigners(list)
    ensures OnePerSigner(Samples(list))
    ensures SampleSigners(Samples(list)) <= SignersOf(list)
  {
    if list != [] {
      var init, last := list[..|list| - 1], list[|list| - 1];
      DistinctSamples(init);
      assert list == init + [last];
      SignersAppend(init, last);
      assert last.claimedSigner !in SignersOf(init);
      forall i | 0 <= i < |Samples(init)| ensures Samples(init)[i].signer in SampleSigners(Samples(init)) {
        assert Samples(init)[i] in Samples(init);
      }
    }
  }

  function ValueOf(s: Sample): seq<nat> {
    [s.value]
  }

  function StampOf(s: Sample): seq<nat> {
    [s.stamp]
  }

  lemma {:induction false} NumbersAreCollected(samples: seq<Sample>)
    ensures Values(samples) == Collect(samples, ValueOf)
    ensures Stamps(samples) == Collect(samples, StampOf)
  {
    if samples != [] {
      NumbersAreCollected(samples[..|samples| - 1]);
    }
  }

  lemma SortOfPermutation(a: seq<nat>, b: seq<nat>)
    requires multiset(a) == multiset(b)
    ensures Sort(a) == Sort(b)
  {
    SortedUnique(Sort(a), Sort(b));
  }

  lemma QuoteOfPermutation(x: seq<Sample>, y: seq<Sample>, now: int, maxAge: nat)
    requires multiset(x) == multiset(y)
    ensures Quote(x, now, maxAge) == Quote(y, now, maxAge)
  {
    assert |multiset(x)| == |multiset(y)|;
    NumbersAreCollected(x);
    NumbersAreCollected(y);
    CollectOfPermutation(x, y, ValueOf);
    CollectOfPermutation(x, y, StampOf);
    SortOfPermutation(Values(x), Values(y));
    SortOfPermutation(Stamps(x), Stamps(y));
  }

  /** With one package to a signer, the order of the packages does not matter. */
  lemma OrderIndependent(a: seq<SignedPackage>, b: seq<SignedPackage>, now: int, maxAge: nat)
    requires DistinctSigners(a) && DistinctSigners(b) && multiset(a) == multiset(b)
    ensures ScanFeed(a, now, maxAge) == ScanFeed(b, now, maxAge)
  {
    DistinctSamples(a);
    DistinctSamples(b);
    DistinctAllCount(Samples(a));
    DistinctAllCount(Samples(b));
    CollectOfPermutation(a, b, SampleOf);
    QuoteOfPermutation(Samples(a), Samples(b), now, maxAge);
  }
}
