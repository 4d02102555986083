/**
 * Retention policy (StorageManager): the storage capacity and retention period a user gets,
 * the expiry time of a newly saved video, and the sweep that deletes expired videos. The plan is
 * derived from a sticky "total charged" counter and an optional time-boxed extension; an
 * extension that has expired is removed by whichever read notices it.
 */
module Storage {
  import opened Wrappers

  /** Length of a day in the model's time unit (milliseconds). */
  const DayMillis: nat := 86_400_000

  /** Extension plans; OtherType stands for any stored type other than "plus" and "pro". */
  datatype ExtensionType = Plus | Pro | OtherType

  datatype Extension = Extension(kind: ExtensionType, expiresAt: Option<int>)

  /** A saved video; only its expiry matters to the policy. */
  datatype Video = Video(id: Id, expiresAt: Option<int>)

  /** hasChargedCredits */
  predicate HasCharged(totalCharged: int) {
    totalCharged > 0
  }

  /** An extension counts while its expiry lies strictly in the future. */
  predicate ActiveExtension(ext: Option<Extension>, now: int) {
    ext.Some? && ext.value.expiresAt.Some? && ext.value.expiresAt.value > now
  }

  /**
   * What is left of the stored extension after a capacity or period read: it is removed exactly
   * when it carries an expiry that is not in the future; one without an expiry is kept.
   */
  function Evict(ext: Option<Extension>, now: int): (r: Option<Extension>)
    ensures r.None? <==> ext.None? || (ext.value.expiresAt.Some? && ext.value.expiresAt.value <= now)
    ensures r.Some? ==> r == ext
  {
    if ext.Some? && ext.value.expiresAt.Some? && ext.value.expiresAt.value <= now then None else ext
  }

  /** Base capacity in GB: 5 once the account has ever charged credits, 1 before. */
  function BaseCapacity(totalCharged: int): (gb: nat)
    ensures HasCharged(totalCharged) <==> gb == 5
    ensures !HasCharged(totalCharged) <==> gb == 1
  {
    if HasCharged(totalCharged) then 5 else 1
  }

  /**
   * getStorageCapacity: the base capacity plus 5 GB under an active plus extension or 20 GB under
   * an active pro extension.
   */
  function Capacity(totalCharged: int, ext: Option<Extension>, now: int): (gb: nat)
    ensures gb >= BaseCapacity(totalCharged)
    ensures !ActiveExtension(ext, now) ==> gb == BaseCapacity(totalCharged)
    ensures ActiveExtension(ext, now) && ext.value.kind == Plus ==> gb == BaseCapacity(totalCharged) + 5
    ensures ActiveExtension(ext, now) && ext.value.kind == Pro ==> gb == BaseCapacity(totalCharged) + 20
    ensures ActiveExtension(ext, now) && ext.value.kind == OtherType ==> gb == BaseCapacity(totalCharged)
  {
    var base := BaseCapacity(totalCharged);
    if ActiveExtension(ext, now) then
      match ext.value.kind
      case Plus => base + 5
      case Pro => base + 20
      case OtherType => base
    else base
  }

  /**
   * getStoragePeriod, in days: 30 under an active plus extension, 90 under an active pro
   * extension, and 7 otherwise, whether or not the account has charged credits.
   */
  function Period(ext: Option<Extension>, now: int): (days: nat)
    ensures days in {7, 30, 90}
    ensures days == 30 <==> ActiveExtension(ext, now) && ext.value.kind == Plus
    ensures days == 90 <==> ActiveExtension(ext, now) && ext.value.kind == Pro
  {
    if ActiveExtension(ext, now) then
      match ext.value.kind
      case Plus => 30
      case Pro => 90
      case OtherType => 7
    else 7
  }

  /** calculateExpiryDate: `now` plus the retention period; the free-trial flag plays no part. */
  function ExpiryDate(ext: Option<Extension>, now: int, isFreeTrial: bool): (t: int)
    ensures t > now
    ensures t - now == Period(ext, now) * DayMillis
  {
    now + Period(ext, now) * DayMillis
  }

  /** Free-trial and paid videos get the same expiry. */
  lemma ExpiryIgnoresFreeTrial(ext: Option<Extension>, now: int)
    ensures ExpiryDate(ext, now, true) == ExpiryDate(ext, now, false)
  {
  }

  /** Removing an expired extension never changes what the reads report. */
  lemma EvictionIsInvisible(totalCharged: int, ext: Option<Extension>, now: int)
    ensures Capacity(totalCharged, Evict(ext, now), now) == Capacity(totalCharged, ext, now)
    ensures Period(Evict(ext, now), now) == Period(ext, now)
    ensures Evict(Evict(ext, now), now) == Evict(ext, now)
  {
  }

  /** As time passes an extension can only lapse: capacity and period never grow. */
  lemma PolicyNonIncreasingOverTime(totalCharged: int, ext: Option<Extension>, t1: int, t2: int)
    requires t1 <= t2
    ensures Capacity(totalCharged, ext, t2) <= Capacity(totalCharged, ext, t1)
    ensures Period(ext, t2) <= Period(ext, t1)
  {
  }

  // ---------------------------------------------------------------------------------------
  // cleanupExpiredVideos
  // ---------------------------------------------------------------------------------------

  /** A video expires once its expiry is not in the future; one without an expiry never does. */
  predicate Expired(v: Video, now: int) {
    v.expiresAt.Some? && v.expiresAt.value <= now
  }

  /** The videos the sweep keeps, in their original order. */
  function Kept(videos: seq<Video>, now: int): (r: seq<Video>)
    ensures |r| <= |videos|
    ensures forall v :: v in r <==> v in videos && !Expired(v, now)
    decreases |videos|
  {
    if |videos| == 0 then []
    else if Expired(videos[0], now) then Kept(videos[1..], now)
    else [videos[0]] + Kept(videos[1..], now)
  }

  /** How many videos the sweep deletes. */
  function ExpiredCount(videos: seq<Video>, now: int): (n: nat)
    ensures n <= |videos|
    ensures n == 0 <==> forall k :: 0 <= k < |videos| ==> !Expired(videos[k], now)
    decreases |videos|
  {
    if |videos| == 0 then 0
    else (if Expired(videos[0], now) then 1 else 0) + ExpiredCount(videos[1..], now)
  }

  /** Kept and ExpiredCount split the list: together they account for every video. */
  lemma {:induction false} KeptPlusExpired(videos: seq<Video>, now: int)
    ensures |Kept(videos, now)| + ExpiredCount(videos, now) == |videos|
    ensures ExpiredCount(videos, now) == 0 <==> Kept(videos, now) == videos
    decreases |videos|
  {
    if |videos| > 0 {
      KeptPlusExpired(videos[1..], now);
      if Expired(videos[0], now) {
        assert Kept(videos, now) != videos;
      } else {
        assert Kept(videos, now) == videos <==> Kept(videos[1..], now) == videos[1..];
      }
    }
  }

  /** Appending a video appends it to the kept list exactly when it has not expired. */
  lemma {:induction false} KeptAppend(videos: seq<Video>, v: Video, now: int)
    ensures Kept(videos + [v], now) == Kept(videos, now) + (if Expired(v, now) then [] else [v])
    ensures ExpiredCount(videos + [v], now) == ExpiredCount(videos, now) + (if Expired(v, now) then 1 else 0)
    decreases |videos|
  {
    if |videos| > 0 {
      assert (videos + [v])[1..] == videos[1..] + [v];
      KeptAppend(videos[1..], v, now);
    }
  }

  /** The sweep works video by video: it keeps the survivors of each part of the list, in order. */
  lemma {:induction false} KeptConcat(a: seq<Video>, b: seq<Video>, now: int)
    ensures Kept(a + b, now) == Kept(a, now) + Kept(b, now)
    decreases |a|
  {
    if |a| > 0 {
      assert (a + b)[1..] == a[1..] + b;
      KeptConcat(a[1..], b, now);
    } else {
      assert a + b == b;
    }
  }

  /** A second sweep at the same time finds nothing to delete. */
  lemma {:induction false} SweepIdempotent(videos: seq<Video>, now: int)
    ensures Kept(Kept(videos, now), now) == Kept(videos, now)
    ensures ExpiredCount(Kept(videos, now), now) == 0
    decreases |videos|
  {
    if |videos| > 0 {
      SweepIdempotent(videos[1..], now);
    }
  }

  /** An earlier sweep changes nothing about what a later sweep keeps. */
  lemma {:induction false} SweepsCompose(videos: seq<Video>, t1: int, t2: int)
    requires t1 <= t2
    ensures Kept(Kept(videos, t1), t2) == Kept(videos, t2)
    decreases |videos|
  {
    if |videos| > 0 {
      SweepsCompose(videos[1..], t1, t2);
    }
  }

  /**
   * The filter loop of cleanupExpiredVideos over a list of saved videos: the videos kept and the
   * number deleted.
   */
  method SweepExpired(videos: seq<Video>, now: int) returns (active: seq<Video>, deletedCount: nat)
    ensures active == Kept(videos, now)
    ensures deletedCount == |videos| - |active|
    ensures deletedCount == 0 <==> active == videos
  {
    active, deletedCount := [], 0;
    var i := 0;
    while i < |videos|
      invariant 0 <= i <= |videos|
      invariant active == Kept(videos[..i], now)
      invariant deletedCount == ExpiredCount(videos[..i], now)
    {
      KeptAppend(videos[..i], videos[i], now);
      assert videos[..i + 1] == videos[..i] + [videos[i]];
      if Expired(videos[i], now) {
        deletedCount := deletedCount + 1;
      } else {
        active := active + [videos[i]];
      }
      i := i + 1;
    }
    assert videos[..i] == videos;
    KeptPlusExpired(videos, now);
  }

  class StorageManager {
    var totalCharged: int
    var extension: Option<Extension>
    var savedVideos: seq<Video>

    constructor (charged: int, ext: Option<Extension>, videos: seq<Video>)
      ensures totalCharged == charged && extension == ext && savedVideos == videos
    {
      totalCharged, extension, savedVideos := charged, ext, videos;
    }

    /** hasChargedCredits */
    predicate HasChargedCredits()
      reads this
    {
      HasCharged(totalCharged)
    }

    /** getStorageCapacity; removes an expired extension. */
    method GetStorageCapacity(now: int) returns (gb: nat)
      modifies this
      ensures gb == Capacity(old(totalCharged), old(extension), now)
      ensures extension == Evict(old(extension), now)
      ensures totalCharged == old(totalCharged) && savedVideos == old(savedVideos)
    {
      var base := if HasChargedCredits() then 5 else 1;
      if extension.Some? && extension.value.expiresAt.Some? {
        if extension.value.expiresAt.value > now {
          if extension.value.kind == Plus {
            return base + 5;
          } else if extension.value.kind == Pro {
            return base + 20;
          }
        } else {
          extension := None;
        }
      }
      gb := base;
    }

    /** getStoragePeriod; removes an expired extension. */
    method GetStoragePeriod(now: int) returns (days: nat)
      modifies this
      ensures days == Period(old(extension), now)
      ensures extension == Evict(old(extension), now)
      ensures totalCharged == old(totalCharged) && savedVideos == old(savedVideos)
    {
      if extension.Some? && extension.value.expiresAt.Some? {
        if extension.value.expiresAt.value > now {
          if extension.value.kind == Plus {
            return 30;
          } else if extension.value.kind == Pro {
            return 90;
          }
        } else {
          extension := None;
        }
      }
      days := 7;
    }

    /** calculateExpiryDate */
    method CalculateExpiryDate(now: int, isFreeTrial: bool) returns (expiresAt: int)
      modifies this
      ensures expiresAt == ExpiryDate(old(extension), now, isFreeTrial)
      ensures extension == Evict(old(extension), now)
      ensures totalCharged == old(totalCharged) && savedVideos == old(savedVideos)
    {
      var period := GetStoragePeriod(now);
      expiresAt := now + period * DayMillis;
    }

    /** cleanupExpiredVideos: the list is rewritten only when something was deleted. */
    method CleanupExpiredVideos(now: int) returns (deletedCount: nat)
      modifies this
      ensures savedVideos == Kept(old(savedVideos), now)
      ensures deletedCount == |old(savedVideos)| - |savedVideos|
      ensures deletedCount == 0 ==> savedVideos == old(savedVideos)
      ensures totalCharged == old(totalCharged) && extension == old(extension)
    {
      var activeVideos;
      activeVideos, deletedCount := SweepExpired(savedVideos, now);
      if deletedCount > 0 {
        savedVideos := activeVideos;
      }
    }
  }
}
