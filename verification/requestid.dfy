/**
 * The RequestID middleware: it takes the trace id from Google's
 * X-Cloud-Trace-Context header (the text before the first '/'), keeps the
 * caller's X-Request-Id or draws a new one, echoes the request id in the
 * response header and stores both ids in the request context.
 */
module RequestId {
  import opened Wrappers

  const HeaderRequestID := "X-Request-Id"
  const HeaderCloudTrace := "X-Cloud-Trace-Context"
  const ContextKeyRequestID := "req_id"
  const ContextKeyTraceParent := "trace_id"

  /** A value stored in the request context (Go's any): nil, a string, or anything else. */
  datatype Value = Nil | Str(s: string) | OtherValue

  /** What uuid.NewString() returns: 36 characters. */
  type GeneratedId = s: string | |s| == 36 witness "00000000-0000-0000-0000-000000000000"

  /** c.Get: the value stored under key, nil when there is none. */
  function Get(values: map<string, Value>, key: string): Value
  {
    if key in values then values[key] else Nil
  }

  /** GetHeader: the header's value, "" when it is absent; names are taken as already canonical. */
  function GetHeader(header: map<string, string>, name: string): string
  {
    if name in header then header[name] else ""
  }

  /** The index of the first sep in s, if any. */
  function IndexOf(s: string, sep: char): (r: Option<nat>)
    ensures r.None? <==> sep !in s
    ensures r.Some? ==> r.value < |s| && s[r.value] == sep && sep !in s[..r.value]
  {
    if s == [] then None
    else if s[0] == sep then Some(0)
    else match IndexOf(s[1..], sep)
      case None => None
      case Some(i) =>
        assert s[..i + 1] == [s[0]] + s[1..][..i];
        Some(i + 1)
  }

  /**
   * strings.SplitN(s, sep, 2) for a one-character separator: the text
   * before the first sep and the text after it, or s alone when it has no
   * sep (so "" gives [""]). Joining the parts with sep gives s back.
   */
  function SplitTwo(s: string, sep: char): (parts: seq<string>)
    ensures 1 <= |parts| <= 2
    ensures sep !in parts[0]
    ensures |parts| == 1 <==> sep !in s
    ensures |parts| == 1 ==> parts[0] == s
    ensures |parts| == 2 ==> s == parts[0] + [sep] + parts[1]
  {
    match IndexOf(s, sep)
    case None => [s]
    case Some(i) =>
      assert s == s[..i] + [sep] + s[i + 1..];
      [s[..i], s[i + 1..]]
  }

  /**
   * The trace id taken from X-Cloud-Trace-Context: present exactly when the
   * header is not empty and does not start with '/'; it is then the
   * header's longest prefix free of '/', the whole header when it has none.
   */
  function TraceId(header: string): (r: Option<string>)
    ensures r.Some? <==> header != "" && header[0] != '/'
    ensures r.Some? ==>
      r.value != "" && '/' !in r.value && |r.value| <= |header| && r.value == header[..|r.value|] &&
      (|r.value| == |header| <==> '/' !in header) &&
      (|r.value| < |header| ==> header[|r.value|] == '/')
  {
    if header != "" then
      var parts := SplitTwo(header, '/');
      assert parts[0] == header[..|parts[0]|];
      if |parts| > 0 && parts[0] != "" then Some(parts[0]) else None
    else None
  }

  /** The request id: the caller's X-Request-Id when it is not empty, the generated one otherwise; never empty. */
  function RequestIdFor(header: string, generated: GeneratedId): (id: string)
    ensures id != ""
    ensures header != "" ==> id == header
    ensures header == "" ==> id == generated
  {
    if header == "" then generated else header
  }

  /** The context values once RequestID has run: the trace id when there is one, then the request id. */
  function ValuesAfter(values: map<string, Value>, requestHeader: map<string, string>, generated: GeneratedId): map<string, Value>
  {
    var traced := match TraceId(GetHeader(requestHeader, HeaderCloudTrace))
      case Some(t) => values[ContextKeyTraceParent := Str(t)]
      case None => values;
    traced[ContextKeyRequestID := Str(RequestIdFor(GetHeader(requestHeader, HeaderRequestID), generated))]
  }

  /** The part of gin's context the middleware touches. */
  class Context {
    var values: map<string, Value>
    var requestHeader: map<string, string>
    var responseHeader: map<string, string>

    constructor(requestHeader: map<string, string>)
      ensures values == map[] && this.requestHeader == requestHeader && responseHeader == map[]
    {
      values := map[];
      this.requestHeader := requestHeader;
      responseHeader := map[];
    }

    /**
     * RequestID, up to the call of the next handler; generated is the
     * uuid.NewString() drawn when the caller sent no request id.
     */
    method RequestID(generated: GeneratedId)
      modifies this
      ensures requestHeader == old(requestHeader)
      ensures values == ValuesAfter(old(values), requestHeader, generated)
      ensures responseHeader == old(responseHeader)[HeaderRequestID := RequestIdFor(GetHeader(requestHeader, HeaderRequestID), generated)]
      ensures Get(values, ContextKeyRequestID) == Str(responseHeader[HeaderRequestID])
    {
      var trace := GetHeader(requestHeader, HeaderCloudTrace);
      if trace != "" {
        var parts := SplitTwo(trace, '/');
        if |parts| > 0 && parts[0] != "" {
          values := values[ContextKeyTraceParent := Str(parts[0])];
        }
      }
      var reqID := GetHeader(requestHeader, HeaderRequestID);
      if reqID == "" {
        reqID := generated;
      }
      responseHeader := responseHeader[HeaderRequestID := reqID];
      values := values[ContextKeyRequestID := Str(reqID)];
    }
  }

  /**
   * After RequestID the context holds the request id as a non-empty string,
   * and the trace id exactly when the trace header yields one; every other
   * key is left as it was.
   */
  lemma ValuesAfterSpec(values: map<string, Value>, requestHeader: map<string, string>, generated: GeneratedId)
    ensures var v := ValuesAfter(values, requestHeader, generated);
      Get(v, ContextKeyRequestID).Str? && Get(v, ContextKeyRequestID).s != "" &&
      (GetHeader(requestHeader, HeaderRequestID) != "" ==>
         Get(v, ContextKeyRequestID).s == GetHeader(requestHeader, HeaderRequestID)) &&
      (TraceId(GetHeader(requestHeader, HeaderCloudTrace)).Some? ==>
         Get(v, ContextKeyTraceParent) == Str(TraceId(GetHeader(requestHeader, HeaderCloudTrace)).value)) &&
      (TraceId(GetHeader(requestHeader, HeaderCloudTrace)).None? ==>
         Get(v, ContextKeyTraceParent) == Get(values, ContextKeyTraceParent)) &&
      forall k :: k != ContextKeyRequestID && k != ContextKeyTraceParent ==> Get(v, k) == Get(values, k)
  {
  }

  /** A trace header with a span part yields the part before the '/'. */
  lemma TraceIdOfSpanHeader(traceId: string, rest: string)
    requires traceId != "" && '/' !in traceId
    ensures TraceId(traceId + "/" + rest) == Some(traceId)
  {
    var h := traceId + "/" + rest;
    assert h[0] == traceId[0];
    var r := TraceId(h);
    assert h[|traceId|] == '/';
    assert '/' in h;
    assert r.value == h[..|traceId|] == traceId;
  }
}
