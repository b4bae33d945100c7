/**
 The values the storage provider hands back to the script, one datatype per
 remote call. The remote calls themselves are not modelled: a run sees the
 account as fixed data, so a bucket's responses are the same every time the
 script asks within one run.
 */
module S3Api {

  type BucketName = string

  datatype Option<T> = None | Some(value: T)

  /** What a Python call came to: a value, or an exception that escapes it. */
  datatype Outcome<T> = Done(value: T) | Crash

  /** One record of the listing response's "Buckets" array. */
  datatype BucketEntry = BucketEntry(name: BucketName)

  /** Response of the bucket listing: the HTTP status and the records, or an exception. */
  datatype ListResponse =
    | ListOk(status: int, buckets: seq<BucketEntry>)
    | ListErr

  /** Response of the policy-status query: "IsPublic", or an exception of any kind. */
  datatype PolicyStatus = PSOk(isPublic: bool) | PSErr

  /** One entry of a "PublicAccessBlockConfiguration" dictionary, in dictionary order. */
  datatype Rule = Rule(name: string, enabled: bool)

  /**
   Response of the guard-configuration query: the configuration's entries; a
   service error carrying its error code; or an exception that carries no
   service response at all (so reading its error code raises again).
   */
  datatype Pab =
    | PabOk(config: seq<Rule>)
    | PabServiceErr(code: string)
    | PabNonServiceErr

  /** Response of the guard mutation: the HTTP status, or an exception. */
  datatype PutResponse = PutStatus(code: int) | PutErr

  /** A guard mutation the script issues: the bucket and the configuration it sends. */
  datatype PutRequest = PutRequest(bucket: BucketName, config: seq<Rule>)

  /** Everything the account answers during one run. */
  datatype Account = Account(
    listing: ListResponse,
    policyStatus: BucketName -> PolicyStatus,
    accessBlock: BucketName -> Pab,
    put: BucketName -> PutResponse)

  /** The error code meaning that the bucket has no guard configuration at all. */
  const NoSuchConfigCode: string := "NoSuchPublicAccessBlockConfiguration"

  /** The HTTP status the script accepts as success. */
  const HttpOk: int := 200

  /** The configuration every guard mutation sends: all four controls on. */
  const FullGuard: seq<Rule> := [
    Rule("BlockPublicAcls", true),
    Rule("IgnorePublicAcls", true),
    Rule("BlockPublicPolicy", true),
    Rule("RestrictPublicBuckets", true)
  ]

  /** The four control names, each once, every one enabled. */
  lemma FullGuardShape()
    ensures |FullGuard| == 4
    ensures forall i :: 0 <= i < |FullGuard| ==> FullGuard[i].enabled
    ensures forall i, j :: 0 <= i < j < |FullGuard| ==> FullGuard[i].name != FullGuard[j].name
  {
  }
}
