/** The submission form of app/submit/submit-form.tsx: the schema rules on
    its fields and `onSubmit`, which extracts the tweet id from the URL path
    and hands the submission to the `submitTweet` server action. */
module SubmitForm {
  import opened Wrappers
  import opened Strings

  const MSG_PLATFORM: string := "URL must be from Twitter/X"
  const MSG_CATEGORY: string := "Please select a category"
  const FALLBACK_ERROR: string := "Something went wrong"

  /** The form's fields; `notes` is optional. */
  datatype FormValues = FormValues(tweetUrl: string, categoryId: string, notes: Option<string>)

  /** The refinement on `tweetUrl`: the text itself, not only its host,
      must contain one of the two domains. */
  predicate PlatformRule(url: string) {
    Contains(url, "twitter.com") || Contains(url, "x.com")
  }

  /** `categoryId: z.string().min(1)`. */
  predicate CategoryRule(categoryId: string) {
    |categoryId| >= 1
  }

  /** The messages the schema reports, in field order. */
  function SchemaErrors(v: FormValues): (errs: seq<string>)
    ensures errs == [] <==> PlatformRule(v.tweetUrl) && CategoryRule(v.categoryId)
    ensures MSG_PLATFORM in errs <==> !PlatformRule(v.tweetUrl)
    ensures MSG_CATEGORY in errs <==> !CategoryRule(v.categoryId)
    ensures |errs| <= 2
  {
    (if PlatformRule(v.tweetUrl) then [] else [MSG_PLATFORM]) +
    (if CategoryRule(v.categoryId) then [] else [MSG_CATEGORY])
  }

  /** `pathParts[pathParts.length - 1]` of `url.pathname.split("/")`. */
  function TweetId(pathname: string): (id: string)
    ensures '/' !in id
    ensures |id| <= |pathname| && pathname[|pathname| - |id|..] == id
    ensures |id| < |pathname| ==> pathname[|pathname| - |id| - 1] == '/'
  {
    LastSegment(pathname, '/')
  }

  /** A path that ends in a slash gives an empty id. */
  lemma TrailingSlashNoId(pathname: string)
    requires |pathname| > 0 && pathname[|pathname| - 1] == '/'
    ensures TweetId(pathname) == ""
  {
    TrailingSeparatorGivesEmpty(pathname, '/');
  }

  /** The argument passed to `submitTweet`; `categoryId` is None where
      `Number.parseInt` gives NaN. */
  datatype TweetRequest = TweetRequest(tweetId: string, categoryId: Option<nat>, notes: string)

  /** What awaiting `submitTweet` gives. */
  datatype TweetReply = TweetThrew | TweetReturned(success: bool, error: Option<string>)

  /** A toast. */
  datatype Notice = Notice(title: string, description: string)

  /** `result.error || "Something went wrong"`: an absent or empty error
      falls back to the generic text. */
  function FailureText(error: Option<string>): (t: string)
    ensures t != ""
    ensures error.Some? && error.value != "" ==> t == error.value
    ensures error.None? || error.value == "" ==> t == FALLBACK_ERROR
  {
    if error.Some? && error.value != "" then error.value else FALLBACK_ERROR
  }

  class SubmitFormState {
    var isSubmitting: bool

    constructor ()
      ensures !isSubmitting
    {
      isSubmitting := false;
    }

    /** `onSubmit`, called by the form only with values the schema accepts.
        `pathname` is `new URL(values.tweetUrl).pathname`, None when the
        constructor throws; `reply` is what `submitTweet` gives when called.
        Returns the request sent (if any), the toast shown and the route
        navigated to (if any). */
    method OnSubmit(values: FormValues, pathname: Option<string>, reply: TweetReply)
      returns (request: Option<TweetRequest>, notice: Notice, navigateTo: Option<string>)
      requires SchemaErrors(values) == []
      modifies this
      ensures !isSubmitting
      ensures pathname.None? ==>
        request.None? && navigateTo.None? && notice == Notice("Error", "Failed to submit the tweet")
      ensures pathname.Some? && TweetId(pathname.value) == "" ==>
        && request.None? && navigateTo.None?
        && notice == Notice("Invalid tweet URL", "Could not extract tweet ID from the URL")
      ensures pathname.Some? && TweetId(pathname.value) != "" ==>
        request == Some(TweetRequest(TweetId(pathname.value), ParseLeadingInt(values.categoryId), values.notes.GetOr("")))
      ensures navigateTo.Some? <==> request.Some? && reply.TweetReturned? && reply.success
      ensures navigateTo.Some? ==> navigateTo.value == "/"
      ensures request.Some? && reply.TweetThrew? ==> notice == Notice("Error", "Failed to submit the tweet")
      ensures request.Some? && reply.TweetReturned? && !reply.success ==>
        notice == Notice("Submission failed", FailureText(reply.error))
    {
      isSubmitting := true;
      navigateTo := None;
      request := None;
      if pathname.None? {
        notice := Notice("Error", "Failed to submit the tweet");
      } else {
        var pathParts := Split(pathname.value, '/');
        var tweetId := pathParts[|pathParts| - 1];
        if tweetId == "" {
          notice := Notice("Invalid tweet URL", "Could not extract tweet ID from the URL");
        } else {
          request := Some(TweetRequest(tweetId, ParseLeadingInt(values.categoryId), values.notes.GetOr("")));
          match reply
          case TweetThrew =>
            notice := Notice("Error", "Failed to submit the tweet");
          case TweetReturned(success, error) =>
            if success {
              notice := Notice("Submission successful", "Your submission has been received and will be reviewed");
              navigateTo := Some("/");
            } else {
              notice := Notice("Submission failed", FailureText(error));
            }
        }
      }
      isSubmitting := false;
    }
  }
}
