/** `WppMediaUploadConsumerService`: the result of an upload job, called back with table-driven waits. */
module MediaCallback {
  import opened Common
  import opened Retry

  const DELAYS: seq<int> := [1000, 2000, 4000, 8000, 16000]

  /** `fetch` throws, or answers with a status that is or is not a success. */
  datatype CallbackError = FetchThrew | HttpStatus(status: int)

  datatype Callback = Done(payload: string) | Failed(error: string)
  datatype Job = Job(jobId: string, tmpFile: string, callbackUrl: Option<string>)

  /** What the upload gives: an exception, or a status with a body. */
  datatype Upload = UploadThrew | Answered(status: int, data: string)

  datatype Persisted = Persisted(url: string, jobId: string, payload: Callback, error: CallbackError)

  /** The delay table is the exponential backoff with base 1000 that the other loops compute. */
  lemma DelaysAreTheBackoff()
    ensures DELAYS == Backoff(1000, 5)
  {
    assert Pow2(3) == 8 && Pow2(4) == 16;
  }

  predicate IsSuccess(status: int)
  {
    200 <= status < 300
  }

  class MediaUploadConsumer {
    var files: set<string>
    var posts: seq<(string, Callback)>
    var persisted: seq<Persisted>

    /**
     * The loop obeys the shared specification with six attempts. When all have failed, and only
     * then, the callback is persisted, with its last error; `persistThrows` is swallowed.
     */
    method FireWebhookWithRetry(url: string, payload: Callback, jobId: string, http: nat -> Attempt<CallbackError>, persistThrows: bool)
      returns (ghost t: Trace)
      modifies `posts, `persisted
      ensures RetrySpec(http, 6, 1000, t)
      ensures posts == old(posts) + Times((url, payload), t.posts)
      ensures persisted == old(persisted) +
        if t.delivered || persistThrows then [] else [Persisted(url, jobId, payload, http(6).error)]
    {
      DelaysAreTheBackoff();
      var waits: seq<int> := [];
      for attempt := 0 to 6
        invariant forall k: nat :: 1 <= k <= attempt ==> http(k).Fails?
        invariant posts == old(posts) + Times((url, payload), attempt)
        invariant waits == Backoff(1000, Min(attempt, 5))
        invariant persisted == old(persisted) +
          if attempt < 6 || persistThrows then [] else [Persisted(url, jobId, payload, http(6).error)]
      {
        posts := posts + [(url, payload)];
        TimesNext((url, payload), attempt);
        match http(attempt + 1) {
          case Succeeds =>
            t := Trace(attempt + 1, waits, true);
            return;
          case Fails(err) =>
            if attempt < 5 {
              waits := waits + [DELAYS[attempt]];
              BackoffNext(1000, attempt);
            } else if !persistThrows {
              persisted := persisted + [Persisted(url, jobId, payload, err)];
            }
        }
      }
      t := Trace(6, waits, false);
    }

    /**
     * The temporary file goes whatever the upload gave. The caller hears of every job that has a
     * callback url and did not throw, as done exactly on a 2xx answer.
     */
    method HandleJob(job: Job, upload: Upload, http: nat -> Attempt<CallbackError>, persistThrows: bool)
      returns (threw: bool, ghost t: Trace)
      modifies this
      ensures files == old(files) - {job.tmpFile}
      ensures threw <==> upload.UploadThrew?
      ensures match (upload, job.callbackUrl)
        case (Answered(status, data), Some(url)) =>
          && RetrySpec(http, 6, 1000, t)
          && posts == old(posts) + Times((url, if 200 <= status <= 299 then Done(data) else Failed(data)), t.posts)
          && persisted == old(persisted) + (if t.delivered || persistThrows then []
               else [Persisted(url, job.jobId, if 200 <= status <= 299 then Done(data) else Failed(data), http(6).error)])
        case _ => posts == old(posts) && persisted == old(persisted)
    {
      t := Trace(0, [], false);
      files := files - {job.tmpFile};
      if upload.UploadThrew? {
        return true, t;
      }
      threw := false;
      var isSuccess := IsSuccess(upload.status);
      if job.callbackUrl.None? {
        return;
      }
      var payload := if isSuccess then Done(upload.data) else Failed(upload.data);
      t := FireWebhookWithRetry(job.callbackUrl.value, payload, job.jobId, http, persistThrows);
    }
  }
}
