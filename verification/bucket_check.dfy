/**
 * CheckS3BucketAccess: the outcome of a HeadBucket call, classified by the
 * text of the error the SDK returned. The call itself is an input: None when
 * HeadBucket succeeded, Some(text) with the error's message otherwise.
 */
module BucketCheck {
  import opened Wrappers
  import opened Text

  function DeniedMessage(bucket: string): string {
    "\U{26A0}\U{FE0F} bucket '" + bucket + "' exists but access is denied"
  }

  function MissingMessage(bucket: string): string {
    "\U{274C} bucket '" + bucket + "' does not exist"
  }

  function UnexpectedMessage(errText: string): string {
    "\U{274C} unexpected error checking bucket: " + errText
  }

  /**
   * The error CheckS3BucketAccess returns: none when HeadBucket succeeded;
   * "access is denied" when the error text mentions 403, checked first;
   * "does not exist" when it mentions NotFound or 404; otherwise the error
   * wrapped as unexpected.
   */
  function CheckS3BucketAccess(bucket: string, headErr: Option<string>): (r: Option<string>)
    ensures headErr.None? <==> r.None?
    ensures headErr.Some? && Contains(headErr.value, "403") ==> r == Some(DeniedMessage(bucket))
    ensures headErr.Some? && !Contains(headErr.value, "403") && (Contains(headErr.value, "NotFound") || Contains(headErr.value, "404")) ==>
              r == Some(MissingMessage(bucket))
    ensures headErr.Some? && !Contains(headErr.value, "403") && !Contains(headErr.value, "NotFound") && !Contains(headErr.value, "404") ==>
              r == Some(UnexpectedMessage(headErr.value))
  {
    match headErr
    case None => None
    case Some(text) =>
      if Contains(text, "403") then Some(DeniedMessage(bucket))
      else if Contains(text, "NotFound") || Contains(text, "404") then Some(MissingMessage(bucket))
      else Some(UnexpectedMessage(text))
  }

  /** A text that starts with t contains it, whatever follows. */
  lemma ContainsAtStart(t: string, rest: string)
    ensures Contains(t + rest, t)
  {
    assert (t + rest)[..|t|] == t;
  }

  /**
   * The 403 test comes first: an error that names both a denial and a
   * missing bucket, such as "403 NotFound", is reported as a denial.
   */
  lemma DenialTakesPrecedence(bucket: string, rest: string)
    ensures CheckS3BucketAccess(bucket, Some("403" + rest)) == Some(DeniedMessage(bucket))
  {
    ContainsAtStart("403", rest);
  }

  /** The three failure messages are told apart: none of them can be mistaken for another. */
  lemma MessagesDistinct(bucket: string, errText: string)
    ensures DeniedMessage(bucket) != MissingMessage(bucket)
    ensures DeniedMessage(bucket) != UnexpectedMessage(errText)
    ensures MissingMessage(bucket) != UnexpectedMessage(errText)
  {
    assert DeniedMessage(bucket)[0] == '\U{26A0}';
    assert MissingMessage(bucket)[0] == '\U{274C}' && UnexpectedMessage(errText)[0] == '\U{274C}';
    assert MissingMessage(bucket)[2] == 'b' && UnexpectedMessage(errText)[2] == 'u';
  }
}
