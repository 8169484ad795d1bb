/**
 * packages/js/plugins/http/src/util.ts: conversion between the HTTP
 * plugin's Request/Response shapes and the HTTP library's config/response.
 * UTF-8 encoding of a string body (`Buffer.from(string)`) is a parameter.
 */
module HttpUtil {
  import opened Wrappers
  import opened Bytes
  import opened Strings
  import opened Records
  import Base64

  datatype Header = Header(key: string, value: string)

  /** A response body: text, or raw bytes when the library returned a buffer. */
  datatype Body = Text(text: string) | Binary(bytes: seq<byte>)

  datatype AxiosResponse = AxiosResponse(
    status: int,
    statusText: string,
    headers: Record<string>,
    data: Body,
    responseType: Option<string>)

  datatype Response = Response(status: int, statusText: string, headers: seq<Header>, body: Body)

  datatype Request = Request(
    headers: Option<seq<Header>>,
    urlParams: Option<seq<Header>>,
    responseType: string,
    body: Option<string>)

  datatype AxiosRequestConfig = AxiosRequestConfig(
    responseType: string,
    params: Option<Record<string>>,
    headers: Option<Record<string>>)

  /** `Buffer.from(data)`: the bytes of a buffer, or the UTF-8 encoding of a string. */
  function BufferFrom(data: Body, utf8: string -> seq<byte>): seq<byte>
  {
    match data
    case Binary(b) => b
    case Text(t) => utf8(t)
  }

  /**
   * One header per response header key, in key order; status and status
   * text copied; the body base64-encoded exactly when the request asked
   * for an "arraybuffer", and passed through otherwise.
   */
  method FromAxiosResponse(response: AxiosResponse, utf8: string -> seq<byte>) returns (r: Response)
    ensures |r.headers| == |response.headers|
    ensures forall i :: 0 <= i < |response.headers| ==>
      r.headers[i] == Header(response.headers[i].0, response.headers[i].1)
    ensures r.status == response.status && r.statusText == response.statusText
    ensures response.responseType == Some("arraybuffer") ==>
      r.body.Text? && Base64.Decode(r.body.text) == Some(BufferFrom(response.data, utf8))
    ensures response.responseType != Some("arraybuffer") ==> r.body == response.data
  {
    var responseHeaders: seq<Header> := [];
    var keys := Keys(response.headers);
    for i := 0 to |keys|
      invariant |responseHeaders| == i
      invariant forall j :: 0 <= j < i ==>
        responseHeaders[j] == Header(response.headers[j].0, response.headers[j].1)
    {
      var key := keys[i];
      responseHeaders := responseHeaders + [Header(key, response.headers[i].1)];
    }
    if response.responseType == Some("arraybuffer") {
      var bytes := BufferFrom(response.data, utf8);
      Base64.DecodeEncode(bytes);
      r := Response(response.status, response.statusText, responseHeaders, Text(Base64.Encode(bytes)));
    } else {
      r := Response(response.status, response.statusText, responseHeaders, response.data);
    }
  }

  function HeaderPairs(list: seq<Header>): (pairs: seq<(string, string)>)
    ensures |pairs| == |list|
    ensures forall i :: 0 <= i < |list| ==> pairs[i] == (list[i].key, list[i].value)
  {
    if list == [] then [] else [(list[0].key, list[0].value)] + HeaderPairs(list[1..])
  }

  /** `list?.reduce((o, h) => ({...o, [h.key]: h.value}), {})`. */
  function FoldHeaders(list: Option<seq<Header>>): Option<Record<string>>
  {
    match list
    case None => None
    case Some(l) => Some(FromPairs(HeaderPairs(l)))
  }

  /**
   * The request's response type lower-cased; url parameters and headers
   * folded into records (absent lists stay absent); the body is not copied.
   */
  method ToAxiosRequestConfig(request: Request) returns (config: AxiosRequestConfig)
    ensures config.responseType == ToLower(request.responseType)
    ensures config.params == FoldHeaders(request.urlParams) && config.headers == FoldHeaders(request.headers)
    ensures config.params.Some? <==> request.urlParams.Some?
    ensures config.headers.Some? <==> request.headers.Some?
    ensures config.params.Some? ==> forall k ::
      Get(config.params.value, k) == LastValue(HeaderPairs(request.urlParams.value), k)
    ensures config.headers.Some? ==> forall k ::
      Get(config.headers.value, k) == LastValue(HeaderPairs(request.headers.value), k)
    ensures config.params.Some? ==> DistinctKeys(config.params.value)
    ensures config.headers.Some? ==> DistinctKeys(config.headers.value)
  {
    var urlParams := FoldHeaders(request.urlParams);
    var requestHeaders := FoldHeaders(request.headers);
    config := AxiosRequestConfig(ToLower(request.responseType), None, None);
    if urlParams.Some? {
      forall k ensures Get(urlParams.value, k) == LastValue(HeaderPairs(request.urlParams.value), k) {
        GetFromPairs(HeaderPairs(request.urlParams.value), k);
      }
      FromPairsDistinct(HeaderPairs(request.urlParams.value));
      config := config.(params := urlParams);
    }
    if requestHeaders.Some? {
      forall k ensures Get(requestHeaders.value, k) == LastValue(HeaderPairs(request.headers.value), k) {
        GetFromPairs(HeaderPairs(request.headers.value), k);
      }
      FromPairsDistinct(HeaderPairs(request.headers.value));
      config := config.(headers := requestHeaders);
    }
  }

  /** The response type is lower-cased and nothing more: "BINARY" becomes "binary", which is not "arraybuffer". */
  lemma BinaryResponseTypeIsNotArrayBuffer()
    ensures ToLower("BINARY") == "binary" != "arraybuffer"
  {
  }

  /**
   * A request's config handed to the HTTP library and its response converted
   * back, as written: a "BINARY" request gets its body back unencoded.
   */
  method ResponseOfRequest(request: Request, status: int, statusText: string, headers: Record<string>, data: Body,
                           utf8: string -> seq<byte>) returns (r: Response)
    ensures request.responseType == "BINARY" ==> r.body == data
  {
    var config := ToAxiosRequestConfig(request);
    BinaryResponseTypeIsNotArrayBuffer();
    r := FromAxiosResponse(AxiosResponse(status, statusText, headers, data, Some(config.responseType)), utf8);
  }

  /** The response type the plugin's schema evidently intends: "BINARY" asks for an "arraybuffer". */
  function ResponseTypeCorrected(responseType: string): (r: string)
    ensures responseType == "BINARY" ==> r == "arraybuffer"
    ensures responseType != "BINARY" ==> r == ToLower(responseType)
  {
    if responseType == "BINARY" then "arraybuffer" else ToLower(responseType)
  }

  /** `toAxiosRequestConfig` with the corrected response type. */
  method ToAxiosRequestConfigCorrected(request: Request) returns (config: AxiosRequestConfig)
    ensures config.responseType == ResponseTypeCorrected(request.responseType)
    ensures config.params == FoldHeaders(request.urlParams) && config.headers == FoldHeaders(request.headers)
  {
    config := ToAxiosRequestConfig(request);
    config := config.(responseType := ResponseTypeCorrected(request.responseType));
  }

  /**
   * With the corrected config a "BINARY" request takes the base64 branch:
   * its body comes back as base64 text that decodes to the response bytes.
   */
  method ResponseOfRequestCorrected(request: Request, status: int, statusText: string, headers: Record<string>,
                                    data: Body, utf8: string -> seq<byte>) returns (r: Response)
    ensures request.responseType == "BINARY" ==>
      r.body.Text? && Base64.Decode(r.body.text) == Some(BufferFrom(data, utf8))
    ensures request.responseType == "TEXT" ==> r.body == data
  {
    var config := ToAxiosRequestConfigCorrected(request);
    r := FromAxiosResponse(AxiosResponse(status, statusText, headers, data, Some(config.responseType)), utf8);
  }
}
