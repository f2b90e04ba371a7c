/**
 * The access-log middleware: a response writer that keeps a copy of the
 * first 2048 bytes of the response body, the request-body preview (which
 * also replaces the body the later handlers read), the masked LINE
 * signature and toStr on the ids RequestID stored in the context.
 */
module Logging {
  import opened Bytes
  import opened Wrappers
  import Sanitize
  import RequestId

  /** The cap on both body previews, in bytes. */
  const MaxPreview: nat := 2048

  /** The first bytes of b, up to the cap: all of b when it fits. */
  function Capped(b: seq<byte>): (r: seq<byte>)
    ensures |r| <= MaxPreview && |r| <= |b|
    ensures r == b[..|r|]
    ensures |b| <= MaxPreview <==> r == b
    ensures |b| > MaxPreview ==> |r| == MaxPreview
  {
    b[..Min(|b|, MaxPreview)]
  }

  /** Capping what was written and then more equals capping it all. */
  lemma CappedAppend(w: seq<byte>, b: seq<byte>)
    ensures Capped(w + b) ==
      if |Capped(w)| < MaxPreview then Capped(w) + b[..Min(|b|, MaxPreview - |Capped(w)|)] else Capped(w)
  {
    if |Capped(w)| < MaxPreview {
      assert Capped(w) == w;
      assert (w + b)[..Min(|w + b|, MaxPreview)] == w + b[..Min(|b|, MaxPreview - |w|)];
    } else {
      assert (w + b)[..MaxPreview] == w[..MaxPreview];
    }
  }

  /** The response writer underneath: it sends what it is given, unless the connection is gone. */
  class ResponseWriter {
    var body: seq<byte>
    var broken: bool

    constructor()
      ensures body == [] && !broken
    {
      body := [];
      broken := false;
    }

    /** Write: all of b and no error, or nothing and an error once the connection is gone. */
    method Write(b: seq<byte>) returns (n: nat, failed: bool)
      modifies this
      ensures broken == old(broken) && failed == broken
      ensures body == if broken then old(body) else old(body) + b
      ensures n == if broken then 0 else |b|
    {
      if broken {
        n, failed := 0, true;
      } else {
        body := body + b;
        n, failed := |b|, false;
      }
    }
  }

  /**
   * bodyLogWriter: forwards every write to the writer underneath and keeps
   * the first 2048 bytes of everything written in buf.
   */
  class BodyLogWriter {
    const inner: ResponseWriter
    var buf: seq<byte>
    /** Everything passed to Write so far. */
    ghost var written: seq<byte>

    ghost predicate Valid()
      reads this
    {
      buf == Capped(written)
    }

    constructor(inner: ResponseWriter)
      ensures Valid() && this.inner == inner && buf == [] && written == []
    {
      this.inner := inner;
      buf := [];
      written := [];
    }

    /**
     * Write: below the cap, buf grows by the prefix of b that fits; at the
     * cap it is left as it is. The writer underneath gets all of b, and
     * its answer is returned.
     */
    method Write(b: seq<byte>) returns (n: nat, failed: bool)
      requires Valid()
      modifies this, inner
      ensures Valid() && written == old(written) + b
      ensures |old(buf)| < MaxPreview ==> buf == old(buf) + b[..Min(|b|, MaxPreview - |old(buf)|)]
      ensures |old(buf)| >= MaxPreview ==> buf == old(buf)
      ensures inner.broken == old(inner.broken) && failed == inner.broken
      ensures inner.body == if inner.broken then old(inner.body) else old(inner.body) + b
      ensures n == if inner.broken then 0 else |b|
    {
      CappedAppend(written, b);
      if |buf| < MaxPreview {
        var remain := MaxPreview - |buf|;
        var chunk := b;
        if |chunk| > remain {
          chunk := chunk[..remain];
        }
        buf := buf + chunk;
      }
      written := written + b;
      n, failed := inner.Write(b);
    }
  }

  /** The incoming request, as far as the middleware reads it; header names are canonical. */
  class Request {
    var body: Option<seq<byte>>
    var header: map<string, seq<byte>>

    constructor(body: Option<seq<byte>>, header: map<string, seq<byte>>)
      ensures this.body == body && this.header == header
    {
      this.body := body;
      this.header := header;
    }

    /**
     * The request-body preview: read at most 2048 bytes of the body, and
     * put exactly those bytes back as the body the later handlers read. A
     * request without a body has the empty preview and keeps no body.
     */
    method PreviewBody() returns (preview: seq<byte>)
      modifies this
      ensures header == old(header)
      ensures old(body).None? ==> preview == [] && body == None
      ensures old(body).Some? ==> preview == Capped(old(body).value) && body == Some(preview)
    {
      preview := [];
      if body.Some? {
        var b := body.value[..Min(|body.value|, MaxPreview)];
        preview := b;
        body := Some(b);
      }
    }
  }

  /** A body longer than the cap reaches the later handlers cut short; one within the cap reaches them whole. */
  lemma RestoredBodyIsCut(b: seq<byte>)
    ensures |b| > MaxPreview ==> Capped(b) != b && |Capped(b)| == MaxPreview
    ensures |b| <= MaxPreview ==> Capped(b) == b
  {
  }

  /** The value of the signature header as Header.Get gives it: "" when absent. */
  function HeaderValue(header: map<string, seq<byte>>, name: string): seq<byte>
  {
    if name in header then header[name] else []
  }

  /** The line_signature field: the X-Line-Signature header, masked when it is not empty. */
  function LoggedLineSignature(header: map<string, seq<byte>>): (r: seq<byte>)
    ensures r == Sanitize.Mask(HeaderValue(header, "X-Line-Signature"))
  {
    var lineSig := HeaderValue(header, "X-Line-Signature");
    if lineSig != [] then Sanitize.Mask(lineSig) else lineSig
  }

  /**
   * The logged signature never shows more than the first and last four
   * bytes of the real one: two requests whose signatures agree there (and
   * are both long) log the same value, and a short one logs as "****".
   */
  lemma LoggedSignatureHidesTheSecret(h1: map<string, seq<byte>>, h2: map<string, seq<byte>>)
    ensures var s1 := HeaderValue(h1, "X-Line-Signature");
      var s2 := HeaderValue(h2, "X-Line-Signature");
      (|s1| > 8 && |s2| > 8 && s1[..4] == s2[..4] && s1[|s1| - 4..] == s2[|s2| - 4..]) ||
      (1 <= |s1| <= 8 && 1 <= |s2| <= 8) ==>
      LoggedLineSignature(h1) == LoggedLineSignature(h2)
    ensures var s1 := HeaderValue(h1, "X-Line-Signature");
      1 <= |s1| <= 8 ==> LoggedLineSignature(h1) == Sanitize.Stars
  {
    Sanitize.MaskRevealsOnlyTheEnds(HeaderValue(h1, "X-Line-Signature"), HeaderValue(h2, "X-Line-Signature"));
  }

  /** toStr: the string itself for a string value, "" for nil and for any other value. */
  function ToStr(v: RequestId.Value): (r: string)
    ensures v.Str? ==> r == v.s
    ensures !v.Str? ==> r == ""
  {
    match v
    case Str(s) => s
    case _ => ""
  }

  /**
   * The req_id and trace_id fields of the log line, when RequestID ran
   * inside this middleware: the request id is never empty and is the
   * caller's X-Request-Id when there was one; the trace id is the one taken
   * from the trace header, or "" when there is none and the context held
   * none before.
   */
  lemma LoggedIds(values: map<string, RequestId.Value>, requestHeader: map<string, string>, generated: RequestId.GeneratedId)
    requires RequestId.ContextKeyTraceParent !in values
    ensures var v := RequestId.ValuesAfter(values, requestHeader, generated);
      var reqId := ToStr(RequestId.Get(v, RequestId.ContextKeyRequestID));
      var traceId := ToStr(RequestId.Get(v, RequestId.ContextKeyTraceParent));
      var trace := RequestId.TraceId(RequestId.GetHeader(requestHeader, RequestId.HeaderCloudTrace));
      reqId != "" &&
      (RequestId.GetHeader(requestHeader, RequestId.HeaderRequestID) != "" ==>
         reqId == RequestId.GetHeader(requestHeader, RequestId.HeaderRequestID)) &&
      traceId == (if trace.Some? then trace.value else "")
  {
    RequestId.ValuesAfterSpec(values, requestHeader, generated);
  }
}
