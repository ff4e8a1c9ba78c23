// The RedStone payload of src/redstone_push.rs: signed packages to bytes, the
// choice of packages an adapter will accept, and a decoder that reads a payload
// the way the protocol does, backwards from its marker.

module Payload {
  import opened Foundations
  import opened Bytes
  import opened DecimalText

  const VALUE_BYTES: nat := 32
  const PACKAGE_BYTES: nat := 142
  const MARKER: bytes := [0x00, 0x00, 0x02, 0xed, 0x57, 0x01, 0x1e, 0x00, 0x00]

  type Feed = bytes
  type Signer = bytes
  type Signature = s: bytes | |s| == 65 witness Zeros(65)

  datatype SignedPackage = SignedPackage(feedId: Feed, valueText: string, timestamp: u64, signature: Signature, claimedSigner: Signer)

  datatype AdapterRules = AdapterRules(threshold: nat, signers: seq<Signer>, maxDelay: u64, maxAhead: u64)

  /** Signature recovery over the signed bytes, as an unknown function. */
  type Recovery = (bytes, Signature) -> Option<Signer>

  // ---------- one package ----------

  function PaddedId(id: Feed): bytes
    requires |id| <= 32
  {
    id + Zeros(32 - |id|)
  }

  /** The signed bytes: id, value, six timestamp bytes, value size, point count. */
  method SerializePackage(package: SignedPackage) returns (r: Option<bytes>)
    ensures r == Serialized(package)
    ensures r.Some? ==> |r.value| == 77
  {
    var id := package.feedId;
    if |id| > 32 {
      return None;
    }
    var out: bytes := id;
    while |out| < 32
      invariant |out| <= 32 && out == id + Zeros(|out| - |id|)
      decreases 32 - |out|
    {
      out := out + [0];
    }
    var value := ScaleValue(package.valueText);
    if value == None {
      return None;
    }
    out := out + (Zeros(VALUE_BYTES - 16) + BigEndian(value.value, 16));
    out := out + BigEndian(package.timestamp, 8)[2..];
    out := out + BigEndian(VALUE_BYTES, 4);
    out := out + [0, 0, 1];
    BigEndianDrop(package.timestamp, 8, 6);
    r := Some(out);
  }

  function Serialized(package: SignedPackage): Option<bytes> {
    if |package.feedId| > 32 || ScaleValue(package.valueText).None? then None
    else Some(Body(package))
  }

  function Body(package: SignedPackage): (b: bytes)
    requires |package.feedId| <= 32 && ScaleValue(package.valueText).Some?
    ensures |b| == 77
  {
    PaddedId(package.feedId)
    + (Zeros(16) + BigEndian(ScaleValue(package.valueText).value, 16))
    + BigEndian(package.timestamp, 6)
    + BigEndian(32, 4)
    + [0, 0, 1]
  }

  function RecoverSigner(package: SignedPackage, recovery: Recovery): Option<Signer> {
    match Serialized(package)
    case None => None
    case Some(body) => recovery(body, package.signature)
  }

  // ---------- the decoder ----------

  datatype Record = Record(id: bytes, value: nat, timestamp: nat, signature: bytes)

  function DecodePackage(b: bytes): Option<Record>
    requires |b| == PACKAGE_BYTES
  {
    if FromBigEndian(b[70..74]) != VALUE_BYTES || FromBigEndian(b[74..77]) != 1 then None
    else Some(Record(b[..32], FromBigEndian(b[32..64]), FromBigEndian(b[64..70]), b[77..]))
  }

  /** `count` packages, the last one first. */
  function DecodePackages(b: bytes, count: nat): Option<seq<Record>> {
    if count == 0 then if b == [] then Some([]) else None
    else if |b| < PACKAGE_BYTES then None
    else
      var cut := |b| - PACKAGE_BYTES;
      match (DecodePackages(b[..cut], count - 1), DecodePackage(b[cut..]))
      case (Some(records), Some(record)) => Some(records + [record])
      case _ => None
  }

  function Decode(payload: bytes): Option<seq<Record>> {
    var n := |payload|;
    if n < 12 || payload[n - 9..] != MARKER then None
    else
      var metadata := FromBigEndian(payload[n - 12..n - 9]);
      if n < 14 + metadata then None
      else
        var end := n - 14 - metadata;
        DecodePackages(payload[..end], FromBigEndian(payload[end..end + 2]))
  }

  predicate Encodable(package: SignedPackage) {
    |package.feedId| <= 32 && ScaleValue(package.valueText).Some?
  }

  /** What a reader should get from a package; a timestamp has six bytes. */
  function RecordOf(package: SignedPackage): Record
    requires Encodable(package)
  {
    Record(PaddedId(package.feedId), ScaleValue(package.valueText).value,
           package.timestamp % 0x1_0000_0000_0000, package.signature)
  }

  function Records(packages: seq<SignedPackage>): seq<Record>
    requires forall p :: p in packages ==> Encodable(p)
  {
    seq(|packages|, i requires 0 <= i < |packages| => RecordOf(packages[i]))
  }

  /** A package as it stands in the payload. */
  function Chunk(package: SignedPackage): (b: bytes)
    requires Encodable(package)
    ensures |b| == PACKAGE_BYTES
  {
    Body(package) + package.signature
  }

  function Chunks(packages: seq<SignedPackage>): seq<bytes>
    requires forall p :: p in packages ==> Encodable(p)
  {
    seq(|packages|, i requires 0 <= i < |packages| => Chunk(packages[i]))
  }

  function Flatten(chunks: seq<bytes>): bytes {
    if chunks == [] then [] else Flatten(chunks[..|chunks| - 1]) + chunks[|chunks| - 1]
  }

  function Encoded(packages: seq<SignedPackage>): bytes
    requires forall p :: p in packages ==> Encodable(p)
  {
    Flatten(Chunks(packages))
  }

  function Trailer(count: nat): bytes {
    BigEndian(count, 2) + [0, 0, 0] + MARKER
  }

  /** The parts of a package's bytes are where the decoder looks for them. */
  lemma PartsOf(id: bytes, value: bytes, timestamp: bytes, size: bytes, points: bytes, signature: bytes)
    requires |id| == 32 && |value| == 32 && |timestamp| == 6 && |size| == 4 && |points| == 3
    ensures var b := (id + value + timestamp + size + points) + signature;
            && b[..32] == id && b[32..64] == value && b[64..70] == timestamp
            && b[70..74] == size && b[74..77] == points && b[77..] == signature
  {
  }

  lemma ChunkSlices(package: SignedPackage)
    requires Encodable(package)
    ensures var b, value := Chunk(package), ScaleValue(package.valueText).value;
            && b[..32] == PaddedId(package.feedId)
            && b[32..64] == Zeros(16) + BigEndian(value, 16)
            && b[64..70] == BigEndian(package.timestamp, 6)
            && b[70..74] == BigEndian(32, 4)
            && b[74..77] == BigEndian(1, 3)
            && b[77..] == package.signature
  {
    OnePoint();
    PartsOf(PaddedId(package.feedId), Zeros(16) + BigEndian(ScaleValue(package.valueText).value, 16),
            BigEndian(package.timestamp, 6), BigEndian(32, 4), [0, 0, 1], package.signature);
  }

  lemma OnePoint()
    ensures BigEndian(1, 3) == [0, 0, 1]
  {
  }

  lemma ChunkReads(value: u128, timestamp: nat)
    ensures FromBigEndian(Zeros(16) + BigEndian(value, 16)) == value
    ensures FromBigEndian(BigEndian(timestamp, 6)) == timestamp % 0x1_0000_0000_0000
    ensures FromBigEndian(BigEndian(32, 4)) == 32 && FromBigEndian(BigEndian(1, 3)) == 1
  {
    ValueReadsBack(value);
    BigEndianRoundTrip(timestamp, 6);
    BigEndianRoundTrip(32, 4);
    BigEndianRoundTrip(1, 3);
    SmallWidths();
  }

  lemma PackageRoundTrip(package: SignedPackage)
    requires Encodable(package)
    ensures DecodePackage(Chunk(package)) == Some(RecordOf(package))
  {
    ChunkSlices(package);
    ChunkReads(ScaleValue(package.valueText).value, package.timestamp);
  }

  lemma SmallWidths()
    ensures Pow256(2) == 0x1_0000
    ensures Pow256(3) == 0x100_0000
    ensures Pow256(4) == 0x1_0000_0000
    ensures Pow256(6) == 0x1_0000_0000_0000
    ensures Pow256(16) == U128_MAX + 1
  {
  }

  lemma SmallModulo(n: nat, m: nat)
    requires n < m
    ensures n % m == n
  {
  }

  lemma ValueReadsBack(value: u128)
    ensures FromBigEndian(Zeros(16) + BigEndian(value, 16)) == value
  {
    FromBigEndianConcat(Zeros(16), BigEndian(value, 16));
    ZerosReadZero(16);
    BigEndianRoundTrip(value, 16);
    SmallWidths();
    SmallModulo(value, Pow256(16));
  }

  lemma {:induction false} ChunksDecode(chunks: seq<bytes>, records: seq<Record>)
    requires |records| == |chunks|
    requires forall i :: 0 <= i < |chunks| ==> |chunks[i]| == PACKAGE_BYTES && DecodePackage(chunks[i]) == Some(records[i])
    ensures DecodePackages(Flatten(chunks), |chunks|) == Some(records)
  {
    if chunks != [] {
      var last := |chunks| - 1;
      ChunksDecode(chunks[..last], records[..last]);
      var b, chunk := Flatten(chunks[..last]), chunks[last];
      assert (b + chunk)[..|b|] == b && (b + chunk)[|b|..] == chunk;
      assert records == records[..last] + [records[last]];
    }
  }

  lemma PackagesRoundTrip(packages: seq<SignedPackage>)
    requires forall p :: p in packages ==> Encodable(p)
    ensures DecodePackages(Encoded(packages), |packages|) == Some(Records(packages))
  {
    var chunks, records := Chunks(packages), Records(packages);
    forall i | 0 <= i < |packages|
      ensures DecodePackage(chunks[i]) == Some(records[i])
    {
      PackageRoundTrip(packages[i]);
    }
    ChunksDecode(chunks, records);
  }

  lemma TrailerSlices(body: bytes, count: nat)
    ensures var payload := body + Trailer(count);
            var n := |payload|;
            && n == |body| + 14
            && payload[n - 9..] == MARKER
            && payload[n - 12..n - 9] == Zeros(3)
            && payload[n - 14..n - 12] == BigEndian(count, 2)
            && payload[..n - 14] == body
  {
  }

  lemma DecodeTrailer(body: bytes, count: nat)
    requires count <= U16_MAX
    ensures Decode(body + Trailer(count)) == DecodePackages(body, count)
  {
    TrailerSlices(body, count);
    TrailerReads(count);
    var payload := body + Trailer(count);
    DecodeSlices(payload, 0, count);
  }

  lemma TrailerReads(count: nat)
    requires count <= U16_MAX
    ensures FromBigEndian(Zeros(3)) == 0
    ensures FromBigEndian(BigEndian(count, 2)) == count
  {
    ZerosReadZero(3);
    BigEndianRoundTrip(count, 2);
    SmallWidths();
  }

  lemma DecodeSlices(payload: bytes, metadata: nat, count: nat)
    requires |payload| >= 14 + metadata
    requires payload[|payload| - 9..] == MARKER
    requires FromBigEndian(payload[|payload| - 12..|payload| - 9]) == metadata
    requires FromBigEndian(payload[|payload| - 14 - metadata..|payload| - 12 - metadata]) == count
    ensures Decode(payload) == DecodePackages(payload[..|payload| - 14 - metadata], count)
  {
  }

  /** Reading a payload backwards gives the packages written into it, in order. */
  lemma PayloadRoundTrip(packages: seq<SignedPackage>)
    requires forall p :: p in packages ==> Encodable(p)
    requires |packages| <= U16_MAX
    ensures Decode(Encoded(packages) + Trailer(|packages|)) == Some(Records(packages))
  {
    DecodeTrailer(Encoded(packages), |packages|);
    PackagesRoundTrip(packages);
  }

  /** Timestamps below 2^48 lose nothing. */
  lemma TimestampKept(package: SignedPackage)
    requires Encodable(package) && package.timestamp < 0x1_0000_0000_0000
    ensures RecordOf(package).timestamp == package.timestamp
  {
  }

  // ---------- which packages an adapter accepts ----------

  predicate InWindow(package: SignedPackage, rules: AdapterRules, now: u64) {
    && Min(package.timestamp + rules.maxDelay, U64_MAX) >= now
    && package.timestamp <= Min(now + rules.maxAhead, U64_MAX)
  }

  /** In the window, recovering to the claimed signer, who is in the set. */
  predicate Usable(package: SignedPackage, rules: AdapterRules, now: u64, recovery: Recovery) {
    && InWindow(package, rules, now)
    && RecoverSigner(package, recovery) == Some(package.claimedSigner)
    && package.claimedSigner in rules.signers
  }

  /** The saturating bounds never matter, and a package is counted exactly when
      it is at most the delay old and at most the allowance ahead, its body can
      be written, its signature recovers over that body to the claimed signer,
      and that signer is in the set. */
  lemma UsableExactly(package: SignedPackage, rules: AdapterRules, now: u64, recovery: Recovery)
    ensures Usable(package, rules, now, recovery) <==>
              && now <= package.timestamp + rules.maxDelay
              && package.timestamp <= now + rules.maxAhead
              && Encodable(package)
              && recovery(Body(package), package.signature) == Some(package.claimedSigner)
              && package.claimedSigner in rules.signers
  {
  }

  type Test = SignedPackage -> bool

  function IsUsable(rules: AdapterRules, now: u64, recovery: Recovery): Test {
    (p: SignedPackage) => Usable(p, rules, now, recovery)
  }

  /** The distinct signers among the candidates that pass the test. */
  ghost function UsableSigners(candidates: seq<SignedPackage>, test: Test): set<Signer> {
    set p | p in candidates && test(p) :: p.claimedSigner
  }

  function SignersOf(packages: seq<SignedPackage>): set<Signer> {
    set p | p in packages :: p.claimedSigner
  }

  predicate DistinctSigners(packages: seq<SignedPackage>) {
    forall i, j :: 0 <= i < j < |packages| ==> packages[i].claimedSigner != packages[j].claimedSigner
  }

  /** How many packages a feed contributes when it has enough signers. */
  function Wanted(rules: AdapterRules): nat {
    Max(rules.threshold, 1)
  }

  /** `taken` are candidates' packages, in their order, usable, one to a signer. */
  ghost predicate TakenFrom(taken: seq<SignedPackage>, candidates: seq<SignedPackage>, test: Test) {
    && (forall p :: p in taken ==> p in candidates && test(p))
    && DistinctSigners(taken)
    && Subsequence(taken, candidates)
  }

  ghost predicate Subsequence<T>(s: seq<T>, t: seq<T>) {
    if s == [] then true
    else if t == [] then false
    else if s[|s| - 1] == t[|t| - 1] then Subsequence(s[..|s| - 1], t[..|t| - 1])
    else Subsequence(s, t[..|t| - 1])
  }

  datatype BuildError =
    | NoPackages(feed: Feed)
    | Shortfall(feed: Feed, usable: nat, threshold: nat)
    | TooManyPackages

  datatype BuildResult = Built(payload: bytes) | Refused(error: BuildError)

  lemma {:induction false} SubsequenceExtends<T>(s: seq<T>, t: seq<T>, x: T)
    requires Subsequence(s, t)
    ensures Subsequence(s + [x], t + [x])
  {
  }

  lemma {:induction false} SubsequenceTail<T>(s: seq<T>, t: seq<T>)
    requires s != [] && Subsequence(s, t)
    ensures Subsequence(s[..|s| - 1], t)
    decreases |t|, 0
  {
    var init := s[..|s| - 1];
    if s[|s| - 1] == t[|t| - 1] {
      SubsequenceSkips(init, t[..|t| - 1], t[|t| - 1]);
      assert t[..|t| - 1] + [t[|t| - 1]] == t;
    } else {
      SubsequenceTail(s, t[..|t| - 1]);
      SubsequenceSkips(init, t[..|t| - 1], t[|t| - 1]);
      assert t[..|t| - 1] + [t[|t| - 1]] == t;
    }
  }

  lemma {:induction false} SubsequenceSkips<T>(s: seq<T>, t: seq<T>, x: T)
    requires Subsequence(s, t)
    ensures Subsequence(s, t + [x])
    decreases |t|, 1
  {
    assert (t + [x])[..|t|] == t;
    if s != [] && s[|s| - 1] == x {
      SubsequenceTail(s, t);
    }
  }

  lemma SignersAppend(packages: seq<SignedPackage>, p: SignedPackage)
    ensures SignersOf(packages + [p]) == SignersOf(packages) + {p.claimedSigner}
  {
  }

  lemma UsableSignersAppend(packages: seq<SignedPackage>, p: SignedPackage, test: Test)
    ensures UsableSigners(packages + [p], test)
         == UsableSigners(packages, test) + if test(p) then {p.claimedSigner} else {}
  {
  }

  lemma UsableSignersMonotone(a: seq<SignedPackage>, b: seq<SignedPackage>, test: Test)
    requires forall p :: p in a ==> p in b
    ensures |UsableSigners(a, test)| <= |UsableSigners(b, test)|
  {
    SubsetSmaller(UsableSigners(a, test), UsableSigners(b, test));
  }

  lemma {:induction false} SubsetSmaller<T>(a: set<T>, b: set<T>)
    requires a <= b
    ensures |a| <= |b|
  {
    if a != {} {
      var x :| x in a;
      SubsetSmaller(a - {x}, b - {x});
    }
  }

  /** What scanning a prefix of the candidates leaves behind. */
  ghost predicate Scanned(accepted: seq<SignedPackage>, prefix: seq<SignedPackage>, test: Test) {
    && TakenFrom(accepted, prefix, test)
    && SignersOf(accepted) == UsableSigners(prefix, test)
    && |SignersOf(accepted)| == |accepted|
  }

  lemma ScanSkips(accepted: seq<SignedPackage>, prefix: seq<SignedPackage>, p: SignedPackage, test: Test)
    requires Scanned(accepted, prefix, test)
    requires !test(p) || p.claimedSigner in SignersOf(accepted)
    ensures Scanned(accepted, prefix + [p], test)
  {
    UsableSignersAppend(prefix, p, test);
    SubsequenceSkips(accepted, prefix, p);
  }

  lemma ScanTakes(accepted: seq<SignedPackage>, prefix: seq<SignedPackage>, p: SignedPackage, test: Test)
    requires Scanned(accepted, prefix, test)
    requires test(p) && p.claimedSigner !in SignersOf(accepted)
    ensures Scanned(accepted + [p], prefix + [p], test)
  {
    UsableSignersAppend(prefix, p, test);
    SignersAppend(accepted, p);
    SubsequenceExtends(accepted, prefix, p);
    DistinctAppend(accepted, p);
  }

  lemma DistinctAppend(packages: seq<SignedPackage>, p: SignedPackage)
    requires DistinctSigners(packages) && p.claimedSigner !in SignersOf(packages)
    ensures DistinctSigners(packages + [p])
  {
    forall i | 0 <= i < |packages| ensures packages[i].claimedSigner in SignersOf(packages) {
      assert packages[i] in packages;
    }
  }

  /** The package's signer, if the adapter would count it. */
  method UsableSigner(package: SignedPackage, rules: AdapterRules, now: u64, recovery: Recovery) returns (signer: Option<Signer>)
    ensures signer == if Usable(package, rules, now, recovery) then Some(package.claimedSigner) else None
  {
    if !InWindow(package, rules, now) {
      return None;
    }
    signer := RecoverSigner(package, recovery);
    if signer == None {
      return None;
    }
    if signer.value != package.claimedSigner || signer.value !in rules.signers {
      return None;
    }
  }

  lemma PrefixGrows<T>(s: seq<T>, i: nat)
    requires i < |s|
    ensures s[..i + 1] == s[..i] + [s[i]]
  {
  }

  /** One candidate of the scan: taken if it is usable and its signer is new. */
  method ConsiderPackage(accepted: seq<SignedPackage>, seen: set<Signer>, package: SignedPackage, ghost prefix: seq<SignedPackage>,
                         rules: AdapterRules, now: u64, recovery: Recovery)
    returns (next: seq<SignedPackage>, nextSeen: set<Signer>)
    requires Scanned(accepted, prefix, IsUsable(rules, now, recovery)) && seen == SignersOf(accepted)
    ensures Scanned(next, prefix + [package], IsUsable(rules, now, recovery)) && nextSeen == SignersOf(next)
    ensures next == accepted || next == accepted + [package]
  {
    var signer := UsableSigner(package, rules, now, recovery);
    if signer == None || signer.value in seen {
      ScanSkips(accepted, prefix, package, IsUsable(rules, now, recovery));
      return accepted, seen;
    }
    ScanTakes(accepted, prefix, package, IsUsable(rules, now, recovery));
    SignersAppend(accepted, package);
    return accepted + [package], seen + {signer.value};
  }

  /** The packages one feed contributes: usable ones, first come first taken per
      signer, stopping at the threshold. As many are taken as there are usable
      signers, up to what is wanted. */
  method AcceptPackages(candidates: seq<SignedPackage>, rules: AdapterRules, now: u64, recovery: Recovery)
    returns (accepted: seq<SignedPackage>)
    ensures TakenFrom(accepted, candidates, IsUsable(rules, now, recovery))
    ensures |accepted| == Min(Wanted(rules), |UsableSigners(candidates, IsUsable(rules, now, recovery))|)
  {
    accepted := [];
    var seen: set<Signer> := {};
    var i := 0;
    while i < |candidates|
      invariant i <= |candidates| && |accepted| < Wanted(rules)
      invariant Scanned(accepted, candidates[..i], IsUsable(rules, now, recovery))
      invariant seen == SignersOf(accepted)
    {
      PrefixGrows(candidates, i);
      var before := |accepted|;
      accepted, seen := ConsiderPackage(accepted, seen, candidates[i], candidates[..i], rules, now, recovery);
      i := i + 1;
      if |accepted| > before && |accepted| >= rules.threshold {
        break;
      }
    }
    ScanDecides(accepted, candidates, i, IsUsable(rules, now, recovery), Wanted(rules));
  }

  /** A prefix that is the whole list, or already yields what is wanted,
      decides the feed. */
  lemma ScanDecides(accepted: seq<SignedPackage>, candidates: seq<SignedPackage>, i: nat, test: Test, wanted: nat)
    requires i <= |candidates| && |accepted| <= wanted
    requires i == |candidates| || |accepted| == wanted
    requires Scanned(accepted, candidates[..i], test)
    ensures TakenFrom(accepted, candidates, test)
    ensures |accepted| == Min(wanted, |UsableSigners(candidates, test)|)
  {
    if i == |candidates| {
      assert candidates[..i] == candidates;
    } else {
      UsableSignersMonotone(candidates[..i], candidates, test);
      LongerKeepsSubsequence(accepted, candidates, i);
    }
  }

  lemma {:induction false} LongerKeepsSubsequence<T>(s: seq<T>, t: seq<T>, i: nat)
    requires i <= |t| && Subsequence(s, t[..i])
    ensures Subsequence(s, t)
    decreases |t| - i
  {
    if i == |t| {
      assert t[..i] == t;
    } else {
      SubsequenceSkips(s, t[..i], t[i]);
      assert t[..i] + [t[i]] == t[..i + 1];
      LongerKeepsSubsequence(s, t, i + 1);
    }
  }

  // ---------- the whole payload ----------

  function Concat(groups: seq<seq<SignedPackage>>): seq<SignedPackage> {
    if groups == [] then [] else Concat(groups[..|groups| - 1]) + groups[|groups| - 1]
  }

  /** How many packages the feeds contribute together. */
  ghost function TakeCount(packages: map<Feed, seq<SignedPackage>>, feeds: seq<Feed>, wanted: nat, test: Test): nat
    requires forall f :: f in feeds ==> f in packages
  {
    if feeds == [] then 0 else
    var last := feeds[|feeds| - 1];
    TakeCount(packages, feeds[..|feeds| - 1], wanted, test) + Min(wanted, |UsableSigners(packages[last], test)|)
  }

  /** Every requested feed has the threshold's number of usable signers. */
  ghost predicate Supplied(packages: map<Feed, seq<SignedPackage>>, feeds: seq<Feed>, threshold: nat, test: Test) {
    forall f :: f in feeds ==> f in packages && |UsableSigners(packages[f], test)| >= threshold
  }

  ghost predicate Buildable(packages: map<Feed, seq<SignedPackage>>, feeds: seq<Feed>, rules: AdapterRules, test: Test) {
    && Supplied(packages, feeds, rules.threshold, test)
    && TakeCount(packages, feeds, Wanted(rules), test) <= U16_MAX
  }

  /** Group i is what feed i contributes. */
  ghost predicate Groups(groups: seq<seq<SignedPackage>>, packages: map<Feed, seq<SignedPackage>>, feeds: seq<Feed>, rules: AdapterRules, test: Test) {
    && |groups| == |feeds|
    && forall i :: 0 <= i < |feeds| ==>
         && feeds[i] in packages
         && TakenFrom(groups[i], packages[feeds[i]], test)
         && rules.threshold <= |groups[i]| == Min(Wanted(rules), |UsableSigners(packages[feeds[i]], test)|)
  }

  /** Packages that passed the test of an adapter can be serialized. */
  lemma TakenAreEncodable(taken: seq<SignedPackage>, candidates: seq<SignedPackage>, rules: AdapterRules, now: u64, recovery: Recovery)
    requires TakenFrom(taken, candidates, IsUsable(rules, now, recovery))
    ensures forall p :: p in taken ==> Encodable(p)
  {
  }

  lemma EncodedAppend(packages: seq<SignedPackage>, p: SignedPackage)
    requires forall q :: q in packages ==> Encodable(q)
    requires Encodable(p)
    ensures Encoded(packages + [p]) == Encoded(packages) + Chunk(p)
  {
    assert Chunks(packages + [p])[..|packages|] == Chunks(packages);
  }

  method AppendPackage(out: bytes, package: SignedPackage, ghost before: seq<SignedPackage>) returns (longer: bytes)
    requires forall p :: p in before + [package] ==> Encodable(p)
    requires out == Encoded(before)
    ensures longer == Encoded(before + [package])
  {
    var serialized := SerializePackage(package);
    EncodedAppend(before, package);
    longer := out + (serialized.value + package.signature);
  }

  lemma NothingTaken(before: seq<SignedPackage>, accepted: seq<SignedPackage>)
    ensures before + accepted[..0] == before
  {
  }

  lemma AllTaken(before: seq<SignedPackage>, accepted: seq<SignedPackage>)
    ensures before + accepted[..|accepted|] == before + accepted
  {
  }

  lemma TakeOneMore(before: seq<SignedPackage>, accepted: seq<SignedPackage>, i: nat)
    requires i < |accepted|
    requires forall p :: p in before + accepted ==> Encodable(p)
    ensures before + accepted[..i + 1] == (before + accepted[..i]) + [accepted[i]]
    ensures forall p :: p in (before + accepted[..i]) + [accepted[i]] ==> Encodable(p)
  {
    assert accepted[..i + 1] == accepted[..i] + [accepted[i]];
    assert forall p :: p in (before + accepted[..i]) + [accepted[i]] ==> p in before + accepted;
  }

  /** Appends one feed's packages; fails only when the counter would overflow. */
  method AppendPackages(out: bytes, count: nat, accepted: seq<SignedPackage>, ghost before: seq<SignedPackage>)
    returns (r: Option<bytes>)
    requires forall p :: p in before + accepted ==> Encodable(p)
    requires out == Encoded(before) && count == |before| <= U16_MAX
    ensures r.None? <==> |before + accepted| > U16_MAX
    ensures r.Some? ==> r.value == Encoded(before + accepted)
  {
    var bytes, total := out, count;
    NothingTaken(before, accepted);
    for i := 0 to |accepted|
      invariant total == |before| + i <= U16_MAX
      invariant bytes == Encoded(before + accepted[..i])
    {
      TakeOneMore(before, accepted, i);
      bytes := AppendPackage(bytes, accepted[i], before + accepted[..i]);
      if total + 1 > U16_MAX {
        return None;
      }
      total := total + 1;
    }
    AllTaken(before, accepted);
    r := Some(bytes);
  }

  lemma GroupsAppend(groups: seq<seq<SignedPackage>>, group: seq<SignedPackage>, packages: map<Feed, seq<SignedPackage>>,
                     feeds: seq<Feed>, i: nat, rules: AdapterRules, test: Test)
    requires i < |feeds| && feeds[i] in packages
    requires Groups(groups, packages, feeds[..i], rules, test)
    requires TakenFrom(group, packages[feeds[i]], test)
    requires rules.threshold <= |group| == Min(Wanted(rules), |UsableSigners(packages[feeds[i]], test)|)
    ensures Groups(groups + [group], packages, feeds[..i + 1], rules, test)
    ensures Concat(groups + [group]) == Concat(groups) + group
  {
  }

  lemma {:induction false} GroupsCount(groups: seq<seq<SignedPackage>>, packages: map<Feed, seq<SignedPackage>>,
                                       feeds: seq<Feed>, rules: AdapterRules, test: Test)
    requires Groups(groups, packages, feeds, rules, test)
    ensures forall f :: f in feeds ==> f in packages
    ensures |Concat(groups)| == TakeCount(packages, feeds, Wanted(rules), test)
  {
    forall f | f in feeds ensures f in packages {
      var i :| 0 <= i < |feeds| && feeds[i] == f;
    }
    if feeds != [] {
      var n := |feeds| - 1;
      GroupsCount(groups[..n], packages, feeds[..n], rules, test);
    }
  }

  lemma {:induction false} TakeCountMonotone(packages: map<Feed, seq<SignedPackage>>, feeds: seq<Feed>, i: nat, wanted: nat, test: Test)
    requires i <= |feeds|
    requires forall f :: f in feeds ==> f in packages
    ensures TakeCount(packages, feeds[..i], wanted, test) <= TakeCount(packages, feeds, wanted, test)
    decreases |feeds|
  {
    if i == |feeds| {
      assert feeds[..i] == feeds;
    } else {
      var init := feeds[..|feeds| - 1];
      assert feeds[..i] == init[..i];
      TakeCountMonotone(packages, init, i, wanted, test);
    }
  }

  /** Builds the payload, or says which feed is short and by how much. `groups`
      is what each feed contributed. */
  method BuildPayload(packages: map<Feed, seq<SignedPackage>>, feeds: seq<Feed>, rules: AdapterRules, now: u64, recovery: Recovery)
    returns (r: BuildResult, ghost groups: seq<seq<SignedPackage>>)
    ensures r.Built? <==> Buildable(packages, feeds, rules, IsUsable(rules, now, recovery))
    ensures r.Built? ==>
              && Groups(groups, packages, feeds, rules, IsUsable(rules, now, recovery))
              && (forall p :: p in Concat(groups) ==> Encodable(p))
              && r.payload == Encoded(Concat(groups)) + Trailer(|Concat(groups)|)
              && Decode(r.payload) == Some(Records(Concat(groups)))
    ensures r.Refused? && r.error.NoPackages? ==> r.error.feed in feeds && r.error.feed !in packages
    ensures r.Refused? && r.error.Shortfall? ==>
              && r.error.feed in feeds && r.error.feed in packages
              && r.error.usable == |UsableSigners(packages[r.error.feed], IsUsable(rules, now, recovery))|
              && r.error.usable < r.error.threshold == rules.threshold
    ensures r.Refused? && (r.error.NoPackages? || r.error.Shortfall?) ==>
              exists i :: 0 <= i < |feeds| && feeds[i] == r.error.feed
                          && Supplied(packages, feeds[..i], rules.threshold, IsUsable(rules, now, recovery))
    ensures r.Refused? && r.error.TooManyPackages? ==>
              exists i :: 0 < i <= |feeds| && Supplied(packages, feeds[..i], rules.threshold, IsUsable(rules, now, recovery))
                          && TakeCount(packages, feeds[..i], Wanted(rules), IsUsable(rules, now, recovery)) > U16_MAX
  {
    ghost var test := IsUsable(rules, now, recovery);
    var out: bytes := [];
    var count := 0;
    groups := [];
    for i := 0 to |feeds|
      invariant Groups(groups, packages, feeds[..i], rules, test)
      invariant forall p :: p in Concat(groups) ==> Encodable(p)
      invariant out == Encoded(Concat(groups))
      invariant count == |Concat(groups)| <= U16_MAX
    {
      var feed := feeds[i];
      GroupsSupply(groups, packages, feeds[..i], rules, test);
      if feed !in packages {
        return Refused(NoPackages(feed)), groups;
      }
      var accepted := AcceptPackages(packages[feed], rules, now, recovery);
      if |accepted| < rules.threshold {
        return Refused(Shortfall(feed, |accepted|, rules.threshold)), groups;
      }
      TakenAreEncodable(accepted, packages[feed], rules, now, recovery);
      GroupsAppend(groups, accepted, packages, feeds, i, rules, test);
      var longer := AppendPackages(out, count, accepted, Concat(groups));
      groups := groups + [accepted];
      if longer == None {
        TooManyMeansUnbuildable(groups, packages, feeds, i + 1, rules, test);
        GroupsSupply(groups, packages, feeds[..i + 1], rules, test);
        GroupsCount(groups, packages, feeds[..i + 1], rules, test);
        return Refused(TooManyPackages), groups;
      }
      out, count := longer.value, count + |accepted|;
    }
    assert feeds[..|feeds|] == feeds;
    GroupsCount(groups, packages, feeds, rules, test);
    GroupsSupply(groups, packages, feeds, rules, test);
    PayloadRoundTrip(Concat(groups));
    r := Built(out + Trailer(count));
  }

  lemma GroupsSupply(groups: seq<seq<SignedPackage>>, packages: map<Feed, seq<SignedPackage>>,
                     feeds: seq<Feed>, rules: AdapterRules, test: Test)
    requires Groups(groups, packages, feeds, rules, test)
    ensures Supplied(packages, feeds, rules.threshold, test)
  {
  }

  lemma TooManyMeansUnbuildable(groups: seq<seq<SignedPackage>>, packages: map<Feed, seq<SignedPackage>>,
                                feeds: seq<Feed>, i: nat, rules: AdapterRules, test: Test)
    requires i <= |feeds|
    requires Groups(groups, packages, feeds[..i], rules, test) && |Concat(groups)| > U16_MAX
    ensures !Buildable(packages, feeds, rules, test)
  {
    if Supplied(packages, feeds, rules.threshold, test) {
      GroupsCount(groups, packages, feeds[..i], rules, test);
      TakeCountMonotone(packages, feeds, i, Wanted(rules), test);
    }
  }

  /** With a threshold of at least one, a payload can be built exactly when
      every feed has a threshold of distinct usable signers and threshold times
      feeds fits the count; each feed then contributes exactly the threshold. */
  lemma BuildableExactly(packages: map<Feed, seq<SignedPackage>>, feeds: seq<Feed>, rules: AdapterRules, test: Test)
    requires rules.threshold >= 1
    ensures Buildable(packages, feeds, rules, test)
       <==> Supplied(packages, feeds, rules.threshold, test) && rules.threshold * |feeds| <= U16_MAX
    ensures forall groups :: Groups(groups, packages, feeds, rules, test) ==>
              forall i :: 0 <= i < |groups| ==> |groups[i]| == rules.threshold
  {
    if Supplied(packages, feeds, rules.threshold, test) {
      SuppliedCount(packages, feeds, rules, test);
    }
  }

  lemma {:induction false} SuppliedCount(packages: map<Feed, seq<SignedPackage>>, feeds: seq<Feed>, rules: AdapterRules, test: Test)
    requires rules.threshold >= 1
    requires Supplied(packages, feeds, rules.threshold, test)
    ensures TakeCount(packages, feeds, Wanted(rules), test) == rules.threshold * |feeds|
  {
    if feeds != [] {
      var init := feeds[..|feeds| - 1];
      SuppliedCount(packages, init, rules, test);
      assert rules.threshold * |feeds| == rules.threshold * |init| + rules.threshold;
    }
  }
}
