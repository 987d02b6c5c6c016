/** Replies of cluster nodes, sorted by the cluster errors they report. */
module ClusterReplies {
  import opened Bytes

  datatype Reply = Reply(isError: bool, str: seq<Byte>)

  datatype ErrorType = NoError | MovedError | AskError | TryAgainError | ClusterDownError | OtherError

  const MOVED: seq<Byte> := [77, 79, 86, 69, 68]
  const ASK: seq<Byte> := [65, 83, 75]
  const TRYAGAIN: seq<Byte> := [84, 82, 89, 65, 71, 65, 73, 78]
  const CLUSTERDOWN: seq<Byte> := [67, 76, 85, 83, 84, 69, 82, 68, 79, 87, 78]

  const VALKEY_ERR_OTHER := 2
  const VALKEY_ERR_OOM := 5
  const VALKEY_ERR_CLUSTER_TOO_MANY_RETRIES := 100

  function GetReplyErrorType(reply: Reply): ErrorType {
    if !reply.isError then NoError
    else if MOVED <= reply.str then MovedError
    else if ASK <= reply.str then AskError
    else if TRYAGAIN <= reply.str then TryAgainError
    else if CLUSTERDOWN <= reply.str then ClusterDownError
    else OtherError
  }

  /** The error is the word that the text of an error reply starts with; no text starts with two of these words. */
  lemma ErrorWords(reply: Reply)
    ensures var e, text := GetReplyErrorType(reply), reply.str;
      && (e.NoError? <==> !reply.isError)
      && (e.MovedError? <==> reply.isError && Ascii("MOVED") <= text)
      && (e.AskError? <==> reply.isError && Ascii("ASK") <= text)
      && (e.TryAgainError? <==> reply.isError && Ascii("TRYAGAIN") <= text)
      && (e.ClusterDownError? <==> reply.isError && Ascii("CLUSTERDOWN") <= text)
  {
    assert MOVED == Ascii("MOVED") && ASK == Ascii("ASK") && TRYAGAIN == Ascii("TRYAGAIN") && CLUSTERDOWN == Ascii("CLUSTERDOWN");
    assert MOVED[0] == 77 && ASK[0] == 65 && TRYAGAIN[0] == 84 && CLUSTERDOWN[0] == 67;
  }

  /** Errors that make the client send the command again. */
  predicate Retryable(reply: Reply) {
    var e := GetReplyErrorType(reply);
    e != NoError && e != OtherError
  }
}
