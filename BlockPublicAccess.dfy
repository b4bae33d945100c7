/**
 The script's logic: list the account's buckets, classify each one, record
 the non-compliant ones in a checkpoint file, then switch the guard on for
 every bucket in that file and record the ones the provider acknowledged.

 The remote calls are replaced by the answers in an `Account`; the operator's
 answer to the per-bucket prompt is the `confirm` parameter (false when the
 prompt raises an ordinary exception, which the script treats like a failed
 mutation).
 */
module BlockPublicAccess {
  import opened S3Api
  import opened Filtering
  import opened Checkpoint

  const NonCompliantFile: string := "non_compliant_buckets"
  const ModifiedFile: string := "modified_buckets"
  const NonCompliantPath: string := "non_compliant_buckets.txt"
  const ModifiedPath: string := "modified_buckets.txt"

  // ---------------------------------------------------------------- listing

  /** The names of the listing's records, in listing order. */
  function Names(entries: seq<BucketEntry>): seq<BucketName>
  {
    seq(|entries|, i requires 0 <= i < |entries| => entries[i].name)
  }

  /**
   `list_s3_buckets`: the record names when the listing answered HTTP 200,
   and nothing (Python's None) when it answered another status or raised.
   */
  method ListS3Buckets(listing: ListResponse) returns (r: Option<seq<BucketName>>)
    ensures r.Some? <==> listing.ListOk? && listing.status == HttpOk
    ensures r.Some? ==> |r.value| == |listing.buckets|
    ensures r.Some? ==> forall i :: 0 <= i < |r.value| ==> r.value[i] == listing.buckets[i].name
  {
    match listing
    case ListErr =>
      return None;
    case ListOk(status, buckets) =>
      if status != HttpOk {
        return None;
      }
      var bucketList := [];
      for i := 0 to |buckets|
        invariant |bucketList| == i
        invariant forall j :: 0 <= j < i ==> bucketList[j] == buckets[j].name
      {
        bucketList := bucketList + [buckets[i].name];
      }
      return Some(bucketList);
  }

  // ------------------------------------------------------------- classifier

  /** Some entry of the guard configuration is switched off. */
  predicate HasDisabledRule(config: seq<Rule>)
  {
    exists i :: 0 <= i < |config| && !config[i].enabled
  }

  /**
   What `evaluate_non_public_bucket` decides from the guard query's answer:
   true (non-compliant) when an entry is off or the configuration is missing,
   false (excluded) when every entry is on or the service reported another
   error, and a crash when the exception carries no service response.
   */
  function Evaluate(pab: Pab): Outcome<bool>
  {
    match pab
    case PabOk(config) => Done(HasDisabledRule(config))
    case PabServiceErr(code) => Done(code == NoSuchConfigCode)
    case PabNonServiceErr => Crash
  }

  /** `evaluate_non_public_bucket`: the scan of the configuration's entries with its early return. */
  method EvaluateNonPublicBucket(pab: Pab) returns (flag: Outcome<bool>)
    ensures flag == Evaluate(pab)
  {
    match pab {
      case PabOk(config) =>
        for i := 0 to |config|
          invariant forall j :: 0 <= j < i ==> config[j].enabled
        {
          if !config[i].enabled {
            return Done(true);
          }
        }
      case PabServiceErr(code) =>
        if code == NoSuchConfigCode {
          return Done(true);
        }
      case PabNonServiceErr =>
        // reading `e.response` on an exception without one raises again
        return Crash;
    }
    flag := Done(false);
  }

  /**
   The per-bucket branch of `get_non_public_buckets`: a bucket reported public
   is excluded without looking at its guard; otherwise (not public, or the
   status query failed) the guard decides. The only crash is a guard query
   whose exception has no service response, on a bucket not known to be
   public; a bucket is excluded only when it is public, every guard entry is
   on, or the service reported an error other than a missing configuration.
   */
  function Classify(ps: PolicyStatus, pab: Pab): (r: Outcome<bool>)
    ensures r == Crash <==> !(ps.PSOk? && ps.isPublic) && pab.PabNonServiceErr?
    ensures r == Done(false) ==>
      || (ps.PSOk? && ps.isPublic)
      || (pab.PabOk? && forall i :: 0 <= i < |pab.config| ==> pab.config[i].enabled)
      || (pab.PabServiceErr? && pab.code != NoSuchConfigCode)
  {
    if ps.PSOk? && ps.isPublic then Done(false) else Evaluate(pab)
  }

  /** A public bucket is never flagged, and never crashes, whatever its guard. */
  lemma PublicNeverFlagged(ps: PolicyStatus, pab: Pab)
    requires ps.PSOk? && ps.isPublic
    ensures Classify(ps, pab) == Done(false)
  {
  }

  /** A bucket not known to be public whose guard configuration is missing is flagged. */
  lemma MissingGuardFlagged(ps: PolicyStatus)
    requires !(ps.PSOk? && ps.isPublic)
    ensures Classify(ps, PabServiceErr(NoSuchConfigCode)) == Done(true)
  {
  }

  /** A bucket not known to be public with any guard entry off is flagged. */
  lemma DisabledRuleFlagged(ps: PolicyStatus, config: seq<Rule>, i: int)
    requires !(ps.PSOk? && ps.isPublic)
    requires 0 <= i < |config| && !config[i].enabled
    ensures Classify(ps, PabOk(config)) == Done(true)
  {
  }

  /** Every guard entry on, or a service error other than a missing configuration: excluded. */
  lemma GuardedOrUnknownExcluded(ps: PolicyStatus, pab: Pab)
    requires || (pab.PabOk? && forall i :: 0 <= i < |pab.config| ==> pab.config[i].enabled)
             || (pab.PabServiceErr? && pab.code != NoSuchConfigCode)
    ensures Classify(ps, pab) == Done(false)
  {
  }

  /** The guard query raising an exception without a service response ends the run. */
  lemma NonServiceErrorCrashes(ps: PolicyStatus)
    requires !(ps.PSOk? && ps.isPublic)
    ensures Classify(ps, PabNonServiceErr) == Crash
  {
  }

  /** The classifier flags a bucket exactly when it is not known to be public and its guard is missing or partly off. */
  lemma FlaggedExactly(ps: PolicyStatus, pab: Pab)
    ensures Classify(ps, pab) == Done(true) <==>
      && !(ps.PSOk? && ps.isPublic)
      && (pab == PabServiceErr(NoSuchConfigCode) || (pab.PabOk? && HasDisabledRule(pab.config)))
  {
  }

  /** The configuration the remediator sends makes the bucket classify as excluded afterwards. */
  lemma FullGuardExcluded(ps: PolicyStatus)
    ensures Classify(ps, PabOk(FullGuard)) == Done(false)
  {
    FullGuardShape();
  }

  // ------------------------------------------------------------------- scan

  /** The classifier's verdict on one bucket of the account. */
  function Verdict(s3: Account, bucket: BucketName): Outcome<bool>
  {
    Classify(s3.policyStatus(bucket), s3.accessBlock(bucket))
  }

  function FlaggedBy(s3: Account): BucketName -> bool
  {
    bucket => Verdict(s3, bucket) == Done(true)
  }

  predicate CrashesOn(s3: Account, bucket: BucketName)
  {
    Verdict(s3, bucket) == Crash
  }

  /**
   What the scan loop produces for a bucket list: the flagged buckets in list
   order, or a crash when any bucket's guard query crashes.
   */
  function NonCompliantList(s3: Account, buckets: seq<BucketName>): Outcome<seq<BucketName>>
  {
    if exists i :: 0 <= i < |buckets| && CrashesOn(s3, buckets[i]) then Crash
    else Done(Filter(FlaggedBy(s3), buckets))
  }

  /** A list scans without a crash exactly when none of its buckets crashes, so both halves of such a list do too. */
  lemma {:induction false} NoCrashSplits(s3: Account, a: seq<BucketName>, b: seq<BucketName>)
    requires NonCompliantList(s3, a + b).Done?
    ensures NonCompliantList(s3, a).Done? && NonCompliantList(s3, b).Done?
  {
    forall i | 0 <= i < |a|
      ensures !CrashesOn(s3, a[i])
    {
      assert (a + b)[i] == a[i];
    }
    forall i | 0 <= i < |b|
      ensures !CrashesOn(s3, b[i])
    {
      assert (a + b)[|a| + i] == b[i];
    }
  }

  /**
   The scan's result is exactly the input filtered by the classifier: the
   kept buckets stay in input order, every flagged bucket is kept as often as
   it occurs, and a bucket reported public is never kept.
   */
  lemma NonCompliantListIsFilter(s3: Account, a: seq<BucketName>, b: seq<BucketName>, x: BucketName)
    requires NonCompliantList(s3, a + b).Done?
    ensures NonCompliantList(s3, a).Done? && NonCompliantList(s3, b).Done?
    ensures NonCompliantList(s3, a + b).value == NonCompliantList(s3, a).value + NonCompliantList(s3, b).value
    ensures multiset(NonCompliantList(s3, a + b).value)[x] ==
      if Verdict(s3, x) == Done(true) then multiset(a + b)[x] else 0
    ensures s3.policyStatus(x) == PSOk(true) ==> x !in NonCompliantList(s3, a + b).value
  {
    NoCrashSplits(s3, a, b);
    FilterAppend(FlaggedBy(s3), a, b);
    FilterCount(FlaggedBy(s3), a + b, x);
    FilterSound(FlaggedBy(s3), a + b);
  }

  /**
   `get_non_public_buckets`: classify every bucket in list order, keep the
   flagged ones, then write them to the non-compliant checkpoint. Iterating
   over a failed listing (None) raises at once; a crashing guard query raises
   out of the loop before anything is written.
   */
  method GetNonPublicBuckets(fs: FileSystem, s3: Account, buckets: Option<seq<BucketName>>)
    returns (r: Outcome<seq<BucketName>>)
    modifies fs
    ensures buckets.None? ==> r == Crash
    ensures buckets.Some? ==> r == NonCompliantList(s3, buckets.value)
    ensures r.Crash? ==> fs.files == old(fs.files)
    ensures r.Done? ==> fs.files == old(fs.files)[NonCompliantPath := Encode(r.value)]
  {
    if buckets.None? {
      return Crash;
    }
    var bs := buckets.value;
    var nonCompliant := [];
    for i := 0 to |bs|
      invariant nonCompliant == Filter(FlaggedBy(s3), bs[..i])
      invariant fs.files == old(fs.files)
      invariant forall j :: 0 <= j < i ==> !CrashesOn(s3, bs[j])
    {
      var bucket := bs[i];
      FilterSnoc(FlaggedBy(s3), bs[..i], bucket);
      assert bs[..i + 1] == bs[..i] + [bucket];
      match s3.policyStatus(bucket)
      case PSOk(isPublic) =>
        if !isPublic {
          var evaluation := EvaluateNonPublicBucket(s3.accessBlock(bucket));
          // a crash here is caught, the same query is evaluated again, and it crashes again
          if evaluation.Crash? {
            return Crash;
          }
          if evaluation.value {
            nonCompliant := nonCompliant + [bucket];
          }
        }
      case PSErr =>
        var evaluation := EvaluateNonPublicBucket(s3.accessBlock(bucket));
        if evaluation.Crash? {
          return Crash;
        }
        if evaluation.value {
          nonCompliant := nonCompliant + [bucket];
        }
    }
    assert bs[..|bs|] == bs;
    assert NonCompliantFile + ".txt" == NonCompliantPath;
    OutputFile(fs, nonCompliant, NonCompliantFile);
    r := Done(nonCompliant);
  }

  // ------------------------------------------------------------ remediation

  /** The bucket's prompt went through and its guard mutation answered HTTP 200. */
  function AckedBy(s3: Account, confirm: BucketName -> bool): BucketName -> bool
  {
    bucket => confirm(bucket) && s3.put(bucket) == PutStatus(HttpOk)
  }

  /**
   `set_block_public_access`: for each bucket in order, prompt, send the
   full guard, and keep the bucket when the answer was HTTP 200; a failed
   answer or an exception skips the bucket and the loop goes on. The kept
   buckets are written to the modified checkpoint.
   */
  method SetBlockPublicAccess(fs: FileSystem, s3: Account, confirm: BucketName -> bool, buckets: seq<BucketName>)
    returns (modified: seq<BucketName>, requests: seq<PutRequest>)
    modifies fs
    ensures modified == Filter(AckedBy(s3, confirm), buckets)
    ensures |requests| == |Filter(confirm, buckets)|
    ensures forall k :: 0 <= k < |requests| ==> requests[k] == PutRequest(Filter(confirm, buckets)[k], FullGuard)
    ensures fs.files == old(fs.files)[ModifiedPath := Encode(modified)]
  {
    modified, requests := [], [];
    for i := 0 to |buckets|
      invariant modified == Filter(AckedBy(s3, confirm), buckets[..i])
      invariant fs.files == old(fs.files)
      invariant |requests| == |Filter(confirm, buckets[..i])|
      invariant forall k :: 0 <= k < |requests| ==> requests[k] == PutRequest(Filter(confirm, buckets[..i])[k], FullGuard)
    {
      var bucket := buckets[i];
      FilterSnoc(AckedBy(s3, confirm), buckets[..i], bucket);
      FilterSnoc(confirm, buckets[..i], bucket);
      assert buckets[..i + 1] == buckets[..i] + [bucket];
      if confirm(bucket) {
        requests := requests + [PutRequest(bucket, FullGuard)];
        var response := s3.put(bucket);
        if response == PutStatus(HttpOk) {
          modified := modified + [bucket];
        }
      }
    }
    assert buckets[..|buckets|] == buckets;
    assert ModifiedFile + ".txt" == ModifiedPath;
    OutputFile(fs, modified, ModifiedFile);
  }

  /**
   Remediation keeps exactly the acknowledged buckets, in input order and with
   their multiplicity, and never a bucket whose mutation failed or raised; the
   whole list is modified exactly when every bucket in it is acknowledged.
   */
  lemma {:induction false} ModifiedAreAcknowledged(s3: Account, confirm: BucketName -> bool, buckets: seq<BucketName>, x: BucketName)
    ensures x in Filter(AckedBy(s3, confirm), buckets) ==> x in buckets && s3.put(x) == PutStatus(HttpOk)
    ensures multiset(Filter(AckedBy(s3, confirm), buckets))[x] ==
      if confirm(x) && s3.put(x) == PutStatus(HttpOk) then multiset(buckets)[x] else 0
    ensures Filter(AckedBy(s3, confirm), buckets) == buckets <==>
      forall i :: 0 <= i < |buckets| ==> confirm(buckets[i]) && s3.put(buckets[i]) == PutStatus(HttpOk)
  {
    FilterSound(AckedBy(s3, confirm), buckets);
    FilterCount(AckedBy(s3, confirm), buckets, x);
    FilterKeepsAll(AckedBy(s3, confirm), buckets);
  }

  // ---------------------------------------------------------------- handler

  /**
   The scan path of a run: list the buckets, then scan them. It succeeds only
   on a listing answered with HTTP 200, and then keeps only listed buckets
   that the classifier flags, never more of them than were listed.
   */
  function FreshScan(s3: Account): (r: Outcome<seq<BucketName>>)
    ensures r.Done? ==> s3.listing.ListOk? && s3.listing.status == HttpOk
    ensures r.Done? ==> |r.value| <= |s3.listing.buckets|
    ensures r.Done? ==> forall x :: x in r.value ==> x in Names(s3.listing.buckets) && Verdict(s3, x) == Done(true)
  {
    if s3.listing.ListOk? && s3.listing.status == HttpOk then
      FilterSound(FlaggedBy(s3), Names(s3.listing.buckets));
      NonCompliantList(s3, Names(s3.listing.buckets))
    else Crash
  }

  /** When the listing's names are clean, the checkpoint the scan writes reads back as the scan's result. */
  lemma FreshScanRoundTrips(s3: Account)
    requires s3.listing.ListOk?
    requires forall i :: 0 <= i < |s3.listing.buckets| ==> CleanName(s3.listing.buckets[i].name)
    ensures FreshScan(s3).Done? ==> Decode(Encode(FreshScan(s3).value)) == FreshScan(s3).value
  {
    if FreshScan(s3).Done? {
      var names := Names(s3.listing.buckets);
      var scanned := FreshScan(s3).value;
      FilterSound(FlaggedBy(s3), names);
      forall i | 0 <= i < |scanned|
        ensures CleanName(scanned[i])
      {
        assert scanned[i] in names;
      }
      RoundTrip(scanned);
    }
  }

  /** What one run did: the list it remediated, the buckets it modified and the mutations it sent. */
  datatype Run = Run(forRemediation: seq<BucketName>, modified: seq<BucketName>, requests: seq<PutRequest>)

  /**
   `lambda_handler`. When the non-compliant checkpoint exists, the scan is
   skipped and the list to remediate is the file's content, in file order.
   Otherwise the scan writes the checkpoint and the list is read back from it.
   Either way every listed bucket is offered to the remediator, whose
   acknowledged buckets go to the modified checkpoint.
   */
  method LambdaHandler(fs: FileSystem, s3: Account, confirm: BucketName -> bool) returns (r: Outcome<Run>)
    modifies fs
    ensures NonCompliantPath in old(fs.files) ==>
      && r.Done?
      && r.value.forRemediation == Decode(old(fs.files)[NonCompliantPath])
      && fs.files == old(fs.files)[ModifiedPath := Encode(r.value.modified)]
    ensures NonCompliantPath !in old(fs.files) ==>
      && (r.Crash? <==> FreshScan(s3).Crash?)
      && (r.Crash? ==> fs.files == old(fs.files))
      && (r.Done? ==>
            && r.value.forRemediation == Decode(Encode(FreshScan(s3).value))
            && fs.files == old(fs.files)[NonCompliantPath := Encode(FreshScan(s3).value)]
                                        [ModifiedPath := Encode(r.value.modified)])
    ensures r.Done? ==> r.value.modified == Filter(AckedBy(s3, confirm), r.value.forRemediation)
    ensures r.Done? ==>
      && |r.value.requests| == |Filter(confirm, r.value.forRemediation)|
      && forall k :: 0 <= k < |r.value.requests| ==>
           r.value.requests[k] == PutRequest(Filter(confirm, r.value.forRemediation)[k], FullGuard)
  {
    // the listing is fetched on both paths; only the scan path uses it
    var buckets := ListS3Buckets(s3.listing);
    var forRemediation;
    if NonCompliantPath in fs.files {
      forRemediation := Decode(fs.files[NonCompliantPath]);
    } else {
      assert buckets.Some? ==> buckets.value == Names(s3.listing.buckets);
      var scanned := GetNonPublicBuckets(fs, s3, buckets);
      if scanned.Crash? {
        return Crash;
      }
      forRemediation := Decode(fs.files[NonCompliantPath]);
    }
    var modified, requests := SetBlockPublicAccess(fs, s3, confirm, forRemediation);
    r := Done(Run(forRemediation, modified, requests));
  }
}
