/** Worked runs of the scan and of the remediator on small accounts. */
module Scenarios {
  import opened S3Api
  import opened Filtering
  import opened BlockPublicAccess

  /** `a` is public, `b` has every guard entry on, `c` has no guard configuration. */
  function ScanAccount(): Account
  {
    Account(
      ListOk(HttpOk, [BucketEntry("a"), BucketEntry("b"), BucketEntry("c")]),
      bucket => PSOk(bucket == "a"),
      bucket => if bucket == "b" then PabOk(FullGuard) else PabServiceErr(NoSuchConfigCode),
      bucket => PutErr)
  }

  /** Only `c` is non-compliant. */
  lemma ScanScenario()
    ensures FreshScan(ScanAccount()) == Done(["c"])
  {
    var s3 := ScanAccount();
    var names := Names(s3.listing.buckets);
    assert names == ["a", "b", "c"];
    FullGuardExcluded(PSOk(false));
    assert !CrashesOn(s3, "a") && !CrashesOn(s3, "b") && !CrashesOn(s3, "c");
    assert !exists i :: 0 <= i < |names| && CrashesOn(s3, names[i]);
    assert Verdict(s3, "a") == Done(false);
    assert Verdict(s3, "b") == Done(false);
    assert Verdict(s3, "c") == Done(true);
    var p := FlaggedBy(s3);
    assert !p("a") && !p("b") && p("c");
    assert [] + ["a"] == ["a"] && ["a"] + ["b"] == ["a", "b"] && ["a", "b"] + ["c"] == names;
    FilterSnoc(p, [], "a");
    FilterSnoc(p, ["a"], "b");
    FilterSnoc(p, ["a", "b"], "c");
    assert Filter(p, names) == ["c"];
  }

  /** The mutation on `c` is acknowledged, the one on `d` fails: only `c` is modified. */
  lemma RemediationScenario()
    ensures Filter(AckedBy(Account(ListErr, bucket => PSErr, bucket => PabOk([]),
                                   bucket => if bucket == "c" then PutStatus(HttpOk) else PutErr),
                           bucket => true),
                   ["c", "d"]) == ["c"]
  {
    assert ["c", "d"][..1] == ["c"];
    assert ["c"][..0] == [];
  }
}
