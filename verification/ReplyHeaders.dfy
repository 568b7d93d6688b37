/** The arithmetic behind Content-Length and Content-Range in the replies to clients. */
module ReplyHeaders {
  import opened Wrappers
  import opened CompleteFileSize

  /** Bytes still to be sent to a client that resumes at the given offset (a saturating subtraction). */
  function RemainingContentLength(completeFilesize: nat, resumeFrom: Option<nat>): nat {
    var offset := match resumeFrom case None => 0 case Some(r) => r;
    if offset <= completeFilesize then completeFilesize - offset else 0
  }

  datatype ContentRange = ContentRange(first: nat, last: nat, total: nat)

  /** The Content-Range of a partial reply. The 64-bit subtraction wraps around for a total of zero. */
  function RangeHeader(contentLength: nat, resumeFrom: nat): ContentRange {
    var total := contentLength + resumeFrom;
    ContentRange(resumeFrom, if total == 0 then U64_LIMIT - 1 else total - 1, total)
  }

  /** Section 14.4 of RFC 9110, for a representation of the given size and a payload of the given length. */
  predicate ValidContentRange(range: ContentRange, size: nat, contentLength: nat) {
    && range.first <= range.last < range.total
    && range.total == size
    && range.last - range.first + 1 == contentLength
  }

  /** A resumed reply carries a valid Content-Range exactly when at least one byte remains. */
  lemma ContentRangeValidExactlyWhenBytesRemain(size: nat, resumeFrom: nat)
    requires size < U64_LIMIT && resumeFrom < U64_LIMIT
    ensures
      var length := RemainingContentLength(size, Some(resumeFrom));
      ValidContentRange(RangeHeader(length, resumeFrom), size, length) <==> resumeFrom < size
    ensures RangeHeader(RemainingContentLength(size, Some(resumeFrom)), resumeFrom).total < U64_LIMIT
  {
  }

  /** The total announced is the true size exactly when the client does not resume past the end. */
  lemma TotalIsTrueSizeExactlyWhenResumeIsInside(size: nat, resumeFrom: nat)
    ensures RangeHeader(RemainingContentLength(size, Some(resumeFrom)), resumeFrom).total == size <==> resumeFrom <= size
  {
  }
}
