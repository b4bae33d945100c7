# S3 Block Public Access remediation, modelled in Dafny

The script audits the buckets of one account. A bucket that is not already
public but lacks a fully enabled Block Public Access guard is non-compliant.
The script writes the non-compliant buckets to a checkpoint file
(`non_compliant_buckets.txt`). It then enables the guard, with all four
controls on, for each bucket in that file. The buckets the provider
acknowledged go to `modified_buckets.txt`. When the non-compliant checkpoint
already exists, the scan is skipped and the file is remediated as it stands.

The model has five modules:

- `S3Api` (`S3Api.dfy`): the provider's answers as data. There is a listing
  response, and per-bucket functions giving the policy-status answer, the
  guard-configuration answer and the guard-mutation answer. The configuration
  the remediator sends (`FullGuard`) is here too.
- `Filtering` (`Filtering.dfy`): an order-preserving filter and its laws. Both
  loops of the script are such a filter.
- `Checkpoint` (`Checkpoint.dfy`): the file format, the directory the script
  writes to (class `FileSystem`, files as a map from name to text) and the
  writing loop `OutputFile`. Reading is Python text mode: universal newlines,
  then `readlines()`, then `rstrip()` on each line.
- `BlockPublicAccess` (`BlockPublicAccess.dfy`): listing, classifier, scan,
  remediator and the entry point. Each loop of the script is a method proved
  against a specification function.
- `Scenarios` (`Scenarios.dfy`): two worked runs on small accounts.

Python exceptions that escape the script are an explicit `Crash` outcome. Two
paths lead there. One is a guard query whose exception carries no service
response, so reading its error code raises again. The other is a scan over a
failed listing, which is `None`.

On three points the model follows the code rather than what the script appears to intend:

- A failed listing does not give an empty scan. `list_s3_buckets` returns
  `None`, and iterating over it raises, so the run crashes before any file is
  written.
- The listing is fetched on the resume path too. Its result is discarded.
- An unexpected non-service exception in the guard query is not isolated per
  bucket. It ends the scan, and no checkpoint is written.

## Model

| member | source | states |
|---|---|---|
| `BlockPublicAccess.ListS3Buckets` | s3_block_public_access.py:10-22 | the result is the record names in listing order exactly when the listing answered HTTP 200; any other status or an exception gives None |
| `BlockPublicAccess.EvaluateNonPublicBucket` | s3_block_public_access.py:24-39 | the early-return scan of the configuration entries decides exactly as `Evaluate`: flagged iff some entry is off or the configuration is missing, excluded on every other service error, a crash when the exception has no service response |
| `BlockPublicAccess.Classify` | s3_block_public_access.py:44-55 | the per-bucket branch crashes exactly when the bucket is not known public and the guard exception has no service response; it excludes a bucket only when it is public, fully guarded, or the service gave another error code |
| `BlockPublicAccess.PublicNeverFlagged` | s3_block_public_access.py:45-47 | a bucket whose status query says public is excluded whatever its guard answer, and never crashes |
| `BlockPublicAccess.MissingGuardFlagged` | s3_block_public_access.py:33-35 | a bucket not known to be public whose guard query fails with `NoSuchPublicAccessBlockConfiguration` is flagged |
| `BlockPublicAccess.DisabledRuleFlagged` | s3_block_public_access.py:28-31 | a bucket not known to be public with any guard entry off is flagged |
| `BlockPublicAccess.GuardedOrUnknownExcluded` | s3_block_public_access.py:32-39 | every entry on, or a service error with another code, excludes the bucket, whatever the status query said |
| `BlockPublicAccess.NonServiceErrorCrashes` | s3_block_public_access.py:32-37 | a guard query raising an exception without a service response crashes the classifier |
| `BlockPublicAccess.FlaggedExactly` | s3_block_public_access.py:24-55 | both directions: flagged iff not known public and the guard is missing or has an entry off |
| `BlockPublicAccess.FullGuardExcluded` | s3_block_public_access.py:64-72 | the configuration the remediator sends classifies as excluded on a later scan |
| `S3Api.FullGuardShape` | s3_block_public_access.py:66-71 | the sent configuration has the four distinct control names, each enabled |
| `BlockPublicAccess.NoCrashSplits` | s3_block_public_access.py:41-55 | a list scans without a crash only if each part of it does |
| `BlockPublicAccess.NonCompliantListIsFilter` | s3_block_public_access.py:41-56 | the scan result of a concatenation is the concatenation of the results (order kept); a flagged bucket occurs as often as in the input, an unflagged one never; a public bucket is never in it |
| `BlockPublicAccess.GetNonPublicBuckets` | s3_block_public_access.py:41-57 | the loop's result is the classifier filter of the input, or a crash when any bucket crashes or the listing was None; on success the checkpoint holds its encoding and nothing else changes; on a crash no file changes |
| `BlockPublicAccess.SetBlockPublicAccess` | s3_block_public_access.py:58-78 | the modified list is the input filtered to confirmed buckets whose mutation answered 200, in order; one mutation per confirmed bucket, in order, each with the full guard; the modified checkpoint holds the encoding |
| `BlockPublicAccess.ModifiedAreAcknowledged` | s3_block_public_access.py:73-77 | a modified bucket was in the input and its mutation answered 200; each acknowledged bucket is kept as often as it occurs, others never; the whole list is modified iff every bucket is acknowledged |
| `BlockPublicAccess.FreshScan` | s3_block_public_access.py:88-95 | the scan path succeeds only on a listing answered with 200, and keeps only listed buckets the classifier flags, never more than were listed |
| `BlockPublicAccess.FreshScanRoundTrips` | s3_block_public_access.py:94-97 | with clean listed names, the list read back after the scan is the scan's result |
| `BlockPublicAccess.LambdaHandler` | s3_block_public_access.py:86-101 | with the checkpoint present the run never crashes, remediates the decoded file in file order and writes only the modified checkpoint; without it the run crashes exactly when listing or scan does, and otherwise remediates what it reads back from the checkpoint the scan wrote |
| `Checkpoint.OutputFile` | s3_block_public_access.py:81-84 | the file `name.txt` is replaced by each name followed by a newline; no other file changes |
| `Checkpoint.Encode` | s3_block_public_access.py:83-84 | a non-empty checkpoint ends in a newline, and names without carriage returns give a file without one |
| `Checkpoint.OneNewlinePerRecord` | s3_block_public_access.py:83-84 | names without line breaks give exactly one newline per record |
| `Checkpoint.EncodeSnoc` | s3_block_public_access.py:83-84 | each iteration of the writing loop appends one record |
| `Checkpoint.RStrip` | s3_block_public_access.py:93 | the result is the longest prefix not ending in whitespace such that only whitespace follows it |
| `Checkpoint.TranslateNewlines` | s3_block_public_access.py:92 | text-mode reading leaves no carriage return and never lengthens the text |
| `Checkpoint.TranslateFixesPlain` | s3_block_public_access.py:92 | text-mode reading leaves a text unchanged exactly when it holds no carriage return |
| `Checkpoint.TranslatePlain` | s3_block_public_access.py:92 | a prefix without carriage returns passes through text-mode reading unchanged, whatever follows it |
| `Checkpoint.LineEndingsAgree` | s3_block_public_access.py:92-93 | clean names each followed by "\r\n" or a lone "\r" read back as the same list as with "\n" |
| `Checkpoint.CarriageReturnSplits` | s3_block_public_access.py:92-93 | a lone "\r" inside a name is a line break: "a\rb\n" reads as [a, b] |
| `Checkpoint.FirstLine` | s3_block_public_access.py:93 | a non-empty prefix with no newline before its last character, ending in a newline unless it is the whole text |
| `Checkpoint.ReadLines` | s3_block_public_access.py:93 | the lines concatenate back to the text; each is non-empty with a newline at most at its end; all but the last end in a newline |
| `Checkpoint.StripAll` | s3_block_public_access.py:93 | the comprehension strips each line, one name per line |
| `Checkpoint.RoundTrip` | s3_block_public_access.py:81-93 | reading back what was written gives the written list, empty list and duplicates included, when no name has a line break or ends in whitespace |
| `Checkpoint.TrailingWhitespaceLost` | s3_block_public_access.py:84-93 | a name with trailing whitespace comes back stripped, so the round trip's condition is needed |
| `Checkpoint.Decode` | s3_block_public_access.py:92-93 | every name read from any file has no line break and no trailing whitespace |
| `Checkpoint.DecodeStable` | s3_block_public_access.py:81-93 | writing back what was read from any file and reading it again gives the same list |
| `Scenarios.ScanScenario` | s3_block_public_access.py:41-56 | buckets a (public), b (all controls on), c (no configuration): the scan result is exactly [c] |
| `Scenarios.RemediationScenario` | s3_block_public_access.py:58-78 | remediating [c, d] where c is acknowledged and d raises modifies exactly [c] |

## Left out

- The provider calls (`list_buckets`, `get_bucket_policy_status`, `get_public_access_block`, `put_public_access_block`) are foreign network calls. Their answers are the fields of `Account`, fixed for the run. The retry of the guard query at line 53 sees the same answer as the first call.
- Real file I/O and `os.path.exists`: the directory is a map from file name to text, and a file exists when its name is a key. Writing assumes a POSIX newline convention and no write failure.
- `print` and the log output are left out.
- The `input()` prompt at line 63 is the `confirm` oracle. False stands for the prompt raising an ordinary exception (end of input), which skips the bucket without a mutation. A keyboard interrupt, which ends the whole run, is not modelled.
- BlockPublicAccess.SetBlockPublicAccess: the `confirm` oracle answers per bucket name, so a name that occurs twice gets the same prompt answer both times. An end of input that is reached part-way through a list with repeated names (for [c, c] with one line of input, only the first c is offered) is not expressible.
- `Evaluate` takes the configuration as entries in dictionary order. Python truthiness of non-boolean values is not modelled, since the provider sends booleans.
- A missing key in a response (`KeyError`) is folded into the exception cases: `PSErr`, `ListErr`, `PutErr`, and `PabNonServiceErr` for the guard query.
- Pagination, retries and concurrency: the script has none.
- Byte-level file encoding is not modelled. Files are text (`seq<char>`).
- Running the scan twice on the same account writes the same checkpoint. This follows from `GetNonPublicBuckets` fixing the file content as a function of its inputs. There is no separate lemma for it.
