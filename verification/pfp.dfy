/** The `pfp` package: an append-only registry of perceptual hashes of known
    avatars, and the check that compares a member's avatar with every entry.
    Fetching, decoding, hashing and the hash distance are foreign code; they
    come in as function parameters and nothing is assumed about them. */
module Pfp {
  import opened Wrappers

  /** A registered hash and the text that describes its image. */
  datatype KnownHash<H> = KnownHash(hash: H, description: string)

  /** Distances below this count as the same picture. */
  const MaxDistance: int := 10

  /** The registry after an attempt to add an image, and the error if the
      attempt failed. */
  datatype Stored<H> = Stored(registry: seq<KnownHash<H>>, err: Option<string>)

  /** `pHashImg`: `decoded` is the outcome of `image.Decode` and `phash` is
      `goimagehash.PerceptionHash`. On success the hash is appended with its
      description; on either failure the registry is left as it was. */
  function PHashImg<I, H>(registry: seq<KnownHash<H>>, decoded: Result<I, string>,
                          phash: I -> Result<H, string>, description: string): (s: Stored<H>)
    ensures s.err.None? <==> decoded.Ok? && phash(decoded.value).Ok?
    ensures s.err.None? ==> s.registry == registry + [KnownHash(phash(decoded.value).value, description)]
    ensures s.err.Some? ==> s.registry == registry
    ensures decoded.Err? ==> s.err == Some(decoded.error)
    ensures decoded.Ok? && phash(decoded.value).Err? ==> s.err == Some(phash(decoded.value).error)
  {
    match decoded
    case Err(e) => Stored(registry, Some(e))
    case Ok(img) =>
      match phash(img)
      case Err(e) => Stored(registry, Some(e))
      case Ok(h) => Stored(registry + [KnownHash(h, description)], None)
  }

  /** Adding an image never rewrites the registry: it either stays as it is
      or grows by exactly one entry at the end. */
  lemma PHashImgAppendsOnly<I, H>(registry: seq<KnownHash<H>>, decoded: Result<I, string>,
                                  phash: I -> Result<H, string>, description: string)
    ensures var s := PHashImg(registry, decoded, phash, description);
      && registry <= s.registry
      && |s.registry| - |registry| == (if s.err.None? then 1 else 0)
  {
  }

  /** A hit: the matching entry's description and its distance. */
  datatype Hit = Hit(description: string, distance: int)

  /** Entry e matches the target hash: its distance computation succeeds and
      gives less than `MaxDistance`. */
  predicate IsHit<H>(e: KnownHash<H>, target: H, distance: (H, H) -> Result<int, string>) {
    distance(e.hash, target).Ok? && distance(e.hash, target).value < MaxDistance
  }

  /** Reference for the scan: the hit of the last matching entry, searched
      from the end of the registry. */
  function LastMatch<H>(entries: seq<KnownHash<H>>, target: H, distance: (H, H) -> Result<int, string>): Option<Hit>
    decreases |entries|
  {
    if |entries| == 0 then None
    else
      var last := entries[|entries| - 1];
      if IsHit(last, target, distance) then Some(Hit(last.description, distance(last.hash, target).value))
      else LastMatch(entries[..|entries| - 1], target, distance)
  }

  /** The reference finds a hit exactly when some entry matches, and the hit
      it finds is that of a matching entry with no matching entry after it. */
  lemma {:induction false} LastMatchSpec<H>(entries: seq<KnownHash<H>>, target: H, distance: (H, H) -> Result<int, string>)
    ensures var m := LastMatch(entries, target, distance);
      && (m.None? <==> forall i :: 0 <= i < |entries| ==> !IsHit(entries[i], target, distance))
      && (m.Some? ==> exists i ::
           && 0 <= i < |entries| && IsHit(entries[i], target, distance)
           && m.value == Hit(entries[i].description, distance(entries[i].hash, target).value)
           && forall j :: i < j < |entries| ==> !IsHit(entries[j], target, distance))
    decreases |entries|
  {
    if |entries| > 0 {
      var n := |entries| - 1;
      var init := entries[..n];
      assert forall j :: 0 <= j < n ==> init[j] == entries[j];
      if IsHit(entries[n], target, distance) {
        assert LastMatch(entries, target, distance) == Some(Hit(entries[n].description, distance(entries[n].hash, target).value));
      } else {
        assert LastMatch(entries, target, distance) == LastMatch(init, target, distance);
        LastMatchSpec(init, target, distance);
        var m := LastMatch(init, target, distance);
        if m.Some? {
          var i :| && 0 <= i < |init| && IsHit(init[i], target, distance)
                   && m.value == Hit(init[i].description, distance(init[i].hash, target).value)
                   && forall j :: i < j < |init| ==> !IsHit(init[j], target, distance);
          assert entries[i] == init[i];
          forall j | i < j < |entries| ensures !IsHit(entries[j], target, distance) {
            if j < n {
              assert entries[j] == init[j];
            }
          }
        } else {
          forall i | 0 <= i < |entries| ensures !IsHit(entries[i], target, distance) {
            if i < n {
              assert entries[i] == init[i];
            }
          }
        }
      }
    }
  }

  /** The loop of `checkPfp`: walks the registry in order, skips entries whose
      distance fails, and lets every later hit overwrite an earlier one. */
  method ScanRegistry<H>(entries: seq<KnownHash<H>>, target: H, distance: (H, H) -> Result<int, string>)
    returns (suspicious: bool, hit: Option<Hit>)
    ensures hit == LastMatch(entries, target, distance)
    ensures suspicious <==> exists i :: 0 <= i < |entries| && IsHit(entries[i], target, distance)
  {
    suspicious, hit := false, None;
    for i := 0 to |entries|
      invariant hit == LastMatch(entries[..i], target, distance)
      invariant suspicious <==> hit.Some?
    {
      assert entries[..i + 1][..i] == entries[..i];
      match distance(entries[i].hash, target)
      case Err(_) =>
      case Ok(d) =>
        if d < MaxDistance {
          suspicious := true;
          hit := Some(Hit(entries[i].description, d));
        }
    }
    assert entries[..|entries|] == entries;
    LastMatchSpec(entries, target, distance);
  }

  /** The outcome of `checkPfp`: whether the avatar matches, the last hit,
      and the error that stopped the check. */
  datatype PfpVerdict = PfpVerdict(suspicious: bool, hit: Option<Hit>, err: Option<string>)

  /** `checkPfp`. `fetch` stands for `http.Get` followed by `image.Decode` of
      the body, `phash` for `goimagehash.PerceptionHash`. */
  function CheckPfp<I, H>(avatarUrl: string, fetch: string -> Result<I, string>, phash: I -> Result<H, string>,
                          registry: seq<KnownHash<H>>, distance: (H, H) -> Result<int, string>): (v: PfpVerdict)
    ensures avatarUrl == "" ==> v == PfpVerdict(false, None, Some("avatar url is empty"))
    ensures v.err.None? <==> avatarUrl != "" && fetch(avatarUrl).Ok? && phash(fetch(avatarUrl).value).Ok?
    ensures v.err.Some? ==> !v.suspicious && v.hit.None?
    ensures v.suspicious <==> v.hit.Some?
    ensures v.err.None? ==>
      var target := phash(fetch(avatarUrl).value).value;
      && (v.suspicious <==> exists i :: 0 <= i < |registry| && IsHit(registry[i], target, distance))
      && v.hit == LastMatch(registry, target, distance)
  {
    if avatarUrl == "" then PfpVerdict(false, None, Some("avatar url is empty"))
    else
      match fetch(avatarUrl)
      case Err(e) => PfpVerdict(false, None, Some(e))
      case Ok(img) =>
        match phash(img)
        case Err(e) => PfpVerdict(false, None, Some(e))
        case Ok(h) =>
          var m := LastMatch(registry, h, distance);
          LastMatchSpec(registry, h, distance);
          PfpVerdict(m.Some?, m, None)
  }

  /** Last match wins: a hit in the later part of the registry decides the
      result whatever the earlier part holds, and without one the earlier part
      decides. */
  lemma {:induction false} LastMatchConcat<H>(a: seq<KnownHash<H>>, b: seq<KnownHash<H>>, target: H,
                                              distance: (H, H) -> Result<int, string>)
    ensures LastMatch(a + b, target, distance) ==
      if LastMatch(b, target, distance).Some? then LastMatch(b, target, distance) else LastMatch(a, target, distance)
    decreases |b|
  {
    if |b| == 0 {
      assert a + b == a;
    } else {
      var init := b[..|b| - 1];
      assert (a + b)[..|a + b| - 1] == a + init;
      assert (a + b)[|a + b| - 1] == b[|b| - 1];
      LastMatchConcat(a, init, target, distance);
    }
  }

  /** The entries whose distance to the target can be computed. */
  function Measurable<H>(entries: seq<KnownHash<H>>, target: H, distance: (H, H) -> Result<int, string>): (r: seq<KnownHash<H>>)
    ensures |r| <= |entries|
    ensures forall e :: e in r ==> e in entries && distance(e.hash, target).Ok?
    decreases |entries|
  {
    if |entries| == 0 then []
    else
      var rest := Measurable(entries[1..], target, distance);
      if distance(entries[0].hash, target).Ok? then [entries[0]] + rest else rest
  }

  /** Entries whose distance fails are skipped: dropping them all leaves the
      result of the scan unchanged. */
  lemma {:induction false} FailedDistancesIgnored<H>(entries: seq<KnownHash<H>>, target: H,
                                                     distance: (H, H) -> Result<int, string>)
    ensures LastMatch(Measurable(entries, target, distance), target, distance) == LastMatch(entries, target, distance)
    decreases |entries|
  {
    if |entries| > 0 {
      var head, tail := entries[0], entries[1..];
      FailedDistancesIgnored(tail, target, distance);
      assert entries == [head] + tail;
      LastMatchConcat([head], tail, target, distance);
      if distance(head.hash, target).Ok? {
        LastMatchConcat([head], Measurable(tail, target, distance), target, distance);
      } else {
        assert !IsHit(head, target, distance);
      }
    }
  }

  /** An avatar whose hash was just registered is reported with the new
      description, provided the distance of a hash to itself comes out below
      the limit. */
  lemma RegisteredIsDetected<I, H>(registry: seq<KnownHash<H>>, avatarUrl: string, fetch: string -> Result<I, string>,
                                   phash: I -> Result<H, string>, distance: (H, H) -> Result<int, string>, description: string)
    requires avatarUrl != "" && fetch(avatarUrl).Ok?
    requires var s := PHashImg(registry, fetch(avatarUrl), phash, description); s.err.None?
    requires var h := phash(fetch(avatarUrl).value).value; distance(h, h).Ok? && distance(h, h).value < MaxDistance
    ensures var s := PHashImg(registry, fetch(avatarUrl), phash, description);
      var h := phash(fetch(avatarUrl).value).value;
      CheckPfp(avatarUrl, fetch, phash, s.registry, distance).hit == Some(Hit(description, distance(h, h).value))
  {
    var s := PHashImg(registry, fetch(avatarUrl), phash, description);
    var h := phash(fetch(avatarUrl).value).value;
    LastMatchConcat(registry, [KnownHash(h, description)], h, distance);
  }
}
