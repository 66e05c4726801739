/** The five traffic personalities (internal/bcl/personality.go): frame-size tables, burst
    limits and congestion thresholds. Durations are nanoseconds. */
module Personality {
  import opened SizeModel

  const MILLISECOND := 1_000_000

  datatype Personality = Personality(buckets: seq<Bucket>, maxBurstBytes: nat, congestionThreshold: nat)

  const BROWSER_SIZES: seq<Bucket> := [
    Bucket(128, 0.06), Bucket(256, 0.08), Bucket(512, 0.09), Bucket(1024, 0.12),
    Bucket(2048, 0.11), Bucket(4096, 0.15), Bucket(8192, 0.14), Bucket(16384, 0.25)]
  const GRPC_SIZES: seq<Bucket> := [
    Bucket(64, 0.10), Bucket(128, 0.15), Bucket(256, 0.18), Bucket(512, 0.20),
    Bucket(1024, 0.17), Bucket(2048, 0.12), Bucket(4096, 0.08)]
  const VIDEO_SIZES: seq<Bucket> := [Bucket(4096, 0.05), Bucket(8192, 0.10), Bucket(16384, 0.85)]
  const MOBILE_SIZES: seq<Bucket> := [
    Bucket(128, 0.15), Bucket(256, 0.20), Bucket(512, 0.25),
    Bucket(1024, 0.20), Bucket(2048, 0.12), Bucket(4096, 0.08)]
  const RELAY_SIZES: seq<Bucket> := [
    Bucket(512, 0.10), Bucket(1024, 0.10), Bucket(2048, 0.15),
    Bucket(4096, 0.20), Bucket(8192, 0.20), Bucket(16384, 0.25)]

  const BROWSER := Personality(BROWSER_SIZES, 512 * 1024, 50 * MILLISECOND)
  const GRPC := Personality(GRPC_SIZES, 128 * 1024, 30 * MILLISECOND)
  const VIDEO := Personality(VIDEO_SIZES, 4 * 1024 * 1024, 100 * MILLISECOND)
  const MOBILE := Personality(MOBILE_SIZES, 64 * 1024, 80 * MILLISECOND)
  const RELAY := Personality(RELAY_SIZES, 1024 * 1024, 40 * MILLISECOND)

  ghost predicate Known(p: Personality) {
    p == BROWSER || p == GRPC || p == VIDEO || p == MOBILE || p == RELAY
  }

  /** The largest TLS record, 2^14 bytes (section 5.1 of RFC 8446). */
  const MAX_TLS_RECORD := 16384

  /** Every table is a proper size model with strictly increasing sizes, all of them larger than
      a frame header and none larger than a TLS record. */
  lemma TablesProper(p: Personality)
    requires Known(p)
    ensures p.buckets != [] && Positive(p.buckets) && IncreasingSizes(p.buckets)
    ensures Total(p.buckets) == 1.0
    ensures forall i :: 0 <= i < |p.buckets| ==> 64 <= p.buckets[i].size <= MAX_TLS_RECORD
    ensures p.congestionThreshold >= MILLISECOND
  {
    TableWeights();
  }

  /** Total weights, and the weights before the last bucket that decide the rejection sampler. */
  lemma TableWeights()
    ensures Total(BROWSER_SIZES) == 1.0 && Weight(BROWSER_SIZES, 7) == 0.75
    ensures Total(GRPC_SIZES) == 1.0 && Weight(GRPC_SIZES, 6) == 0.92
    ensures Total(VIDEO_SIZES) == 1.0 && Weight(VIDEO_SIZES, 2) == 0.15
    ensures Total(MOBILE_SIZES) == 1.0 && Weight(MOBILE_SIZES, 5) == 0.92
    ensures Total(RELAY_SIZES) == 1.0 && Weight(RELAY_SIZES, 5) == 0.75
  {
    assert Weight(BROWSER_SIZES, 4) == 0.35;
    assert Weight(BROWSER_SIZES, 7) == 0.75;
    assert Weight(GRPC_SIZES, 3) == 0.43;
    assert Weight(GRPC_SIZES, 6) == 0.92;
    assert Weight(MOBILE_SIZES, 3) == 0.6;
    assert Weight(RELAY_SIZES, 3) == 0.35;
  }
}
